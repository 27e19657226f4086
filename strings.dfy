/**
 * Small string utilities the launcher relies on: substring search
 * (`str::contains`), joining with a separator (`[String]::join`),
 * `strip_suffix`, and the decimal rendering of an index (`format!("{}", i)`).
 */
module Strings {

  /** `p` occurs in `s` at position `i`. */
  predicate OccursAt(s: string, p: string, i: nat) {
    i + |p| <= |s| && s[i..i + |p|] == p
  }

  /** Rust's `s.contains(p)` for a string pattern. */
  predicate Contains(s: string, p: string) {
    exists i: nat | i <= |s| :: OccursAt(s, p, i)
  }

  predicate StartsWith(s: string, p: string) {
    |p| <= |s| && s[..|p|] == p
  }

  predicate EndsWith(s: string, p: string) {
    |p| <= |s| && s[|s| - |p|..] == p
  }

  /** `parts.join(sep)`: the parts with `sep` between neighbours and nowhere else. */
  function Join(parts: seq<string>, sep: string): string
  {
    if |parts| == 0 then ""
    else if |parts| == 1 then parts[0]
    else parts[0] + sep + Join(parts[1..], sep)
  }

  /** `s.strip_suffix(p).unwrap_or(s)`: drop one trailing `p` when present. */
  function StripSuffixOr(s: string, p: string): (r: string)
    ensures EndsWith(s, p) ==> r + p == s
    ensures !EndsWith(s, p) ==> r == s
  {
    if EndsWith(s, p) then s[..|s| - |p|] else s
  }

  /** Concatenation of `k + sep` for every `k`: the accumulator of a fold that
      appends a separator after each element. */
  function Terminated(parts: seq<string>, sep: string): string
  {
    if |parts| == 0 then "" else parts[0] + sep + Terminated(parts[1..], sep)
  }

  /** Appending a separator after every part and then stripping one trailing
      separator is exactly joining with that separator. */
  lemma {:induction false} StripTerminatedIsJoin(parts: seq<string>, sep: string)
    requires |sep| > 0
    ensures StripSuffixOr(Terminated(parts, sep), sep) == Join(parts, sep)
  {
    if |parts| == 0 {
      assert !EndsWith("", sep);
    } else {
      TerminatedEndsWithSep(parts, sep);
      var t := Terminated(parts, sep);
      if |parts| == 1 {
        assert Terminated(parts[1..], sep) == "";
        assert t == parts[0] + sep;
        assert t[..|t| - |sep|] == parts[0];
      } else {
        var rest := Terminated(parts[1..], sep);
        TerminatedEndsWithSep(parts[1..], sep);
        StripTerminatedIsJoin(parts[1..], sep);
        assert t == parts[0] + sep + rest;
        assert rest[..|rest| - |sep|] == Join(parts[1..], sep);
        assert t[..|t| - |sep|] == parts[0] + sep + rest[..|rest| - |sep|];
      }
    }
  }

  /** The fold's step: one more part adds that part and a separator at the
      end. */
  lemma {:induction false} TerminatedSnoc(parts: seq<string>, last: string, sep: string)
    ensures Terminated(parts + [last], sep) == Terminated(parts, sep) + last + sep
    decreases |parts|
  {
    if |parts| == 0 {
      assert (parts + [last])[1..] == [];
      assert Terminated([], sep) == "";
    } else {
      assert (parts + [last])[1..] == parts[1..] + [last];
      TerminatedSnoc(parts[1..], last, sep);
    }
  }

  lemma {:induction false} TerminatedEndsWithSep(parts: seq<string>, sep: string)
    requires |parts| > 0
    ensures EndsWith(Terminated(parts, sep), sep)
  {
    var t := Terminated(parts, sep);
    if |parts| == 1 {
      assert Terminated(parts[1..], sep) == "";
      assert t == parts[0] + sep;
    } else {
      TerminatedEndsWithSep(parts[1..], sep);
      var rest := Terminated(parts[1..], sep);
      assert t == (parts[0] + sep) + rest;
      assert t[|t| - |sep|..] == rest[|rest| - |sep|..];
    }
  }

  /** The index of the first `c` in `s`, or `|s|` when there is none. */
  function FirstIndexOf(s: string, c: char): (i: nat)
    ensures i <= |s| && c !in s[..i]
    ensures i < |s| ==> s[i] == c
  {
    if |s| == 0 then 0
    else if s[0] == c then 0
    else
      var j := FirstIndexOf(s[1..], c);
      assert s[..j + 1] == [s[0]] + s[1..][..j];
      j + 1
  }

  /** In `line + [c] + rest` with no `c` in `line`, the first `c` is the one
      right after `line`. */
  lemma {:induction false} FirstIndexAfter(line: string, c: char, rest: string)
    requires c !in line
    ensures FirstIndexOf(line + [c] + rest, c) == |line|
  {
    var s := line + [c] + rest;
    if |line| > 0 {
      assert s[1..] == line[1..] + [c] + rest;
      FirstIndexAfter(line[1..], c, rest);
    }
  }

  predicate IsDigit(c: char) {
    '0' <= c <= '9'
  }

  function DigitChar(d: nat): (c: char)
    requires d < 10
    ensures IsDigit(c) && c as int - '0' as int == d
  {
    ('0' as int + d) as char
  }

  /** `format!("{}", n)` for an unsigned integer: its decimal digits, no
      sign, no leading zero. */
  function Decimal(n: nat): (r: string)
    ensures |r| > 0
    ensures forall i :: 0 <= i < |r| ==> IsDigit(r[i])
    ensures r[0] == '0' ==> n == 0
  {
    if n < 10 then [DigitChar(n)] else Decimal(n / 10) + [DigitChar(n % 10)]
  }

  /** The value of a string of decimal digits (most significant first). */
  function DigitsValue(s: string): nat
    requires forall i :: 0 <= i < |s| ==> IsDigit(s[i])
  {
    if |s| == 0 then 0
    else
      assert IsDigit(s[|s| - 1]);
      10 * DigitsValue(s[..|s| - 1]) + (s[|s| - 1] as int - '0' as int)
  }

  /** Reading the decimal rendering back gives the number: `Decimal` is a
      faithful encoding. */
  lemma {:induction false} DecimalRoundTrip(n: nat)
    ensures DigitsValue(Decimal(n)) == n
  {
    if n >= 10 {
      DecimalRoundTrip(n / 10);
      var d := Decimal(n);
      assert d[..|d| - 1] == Decimal(n / 10);
    }
  }

  /** Distinct numbers have distinct renderings, so `{i}` and `{j}`
      placeholders differ whenever `i != j`. */
  lemma DecimalInjective(m: nat, n: nat)
    requires Decimal(m) == Decimal(n)
    ensures m == n
  {
    DecimalRoundTrip(m);
    DecimalRoundTrip(n);
  }
}
