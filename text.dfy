/**
 * The few Python string operations the ping-output parser relies on:
 * `str.split` with a one-character separator, `str.lower`, `str.strip`,
 * the `in` substring test and `float()` on a plain decimal literal.
 */
module Text {
  import opened Options

  /** `s.split(sep)`: the pieces between occurrences of `sep`, always at least one. */
  function Split(s: string, sep: char): (fields: seq<string>)
    ensures |fields| >= 1
    ensures |fields| >= 2 <==> sep in s
    ensures forall i :: 0 <= i < |fields| ==> sep !in fields[i]
    decreases |s|
  {
    if s == [] then [""]
    else
      var rest := Split(s[1..], sep);
      if s[0] == sep then [""] + rest
      else [[s[0]] + rest[0]] + rest[1..]
  }

  /** `sep.join(fields)`, the inverse of `Split`. */
  function Join(fields: seq<string>, sep: char): string
    requires |fields| >= 1
    decreases |fields|
  {
    if |fields| == 1 then fields[0] else fields[0] + [sep] + Join(fields[1..], sep)
  }

  /** Splitting loses nothing: joining the pieces back gives the original text. */
  lemma {:induction false} JoinSplit(s: string, sep: char)
    ensures Join(Split(s, sep), sep) == s
    decreases |s|
  {
    if s != [] {
      JoinSplit(s[1..], sep);
      var rest := Split(s[1..], sep);
      if s[0] != sep && |rest| > 1 {
        assert Join(Split(s, sep), sep) == [s[0]] + rest[0] + [sep] + Join(rest[1..], sep);
      }
    }
  }

  /** A text without the separator is one piece. */
  lemma {:induction false} SplitWithoutSep(s: string, sep: char)
    requires sep !in s
    ensures Split(s, sep) == [s]
    decreases |s|
  {
    if s != [] {
      SplitWithoutSep(s[1..], sep);
      assert s[0] != sep;
      assert [s[0]] + s[1..] == s;
    }
  }

  /** The first piece ends at the first separator; the rest is split on its own. */
  lemma {:induction false} SplitAtFirstSep(a: string, b: string, sep: char)
    requires sep !in a
    ensures Split(a + [sep] + b, sep) == [a] + Split(b, sep)
    decreases |a|
  {
    if a == [] {
      assert a + [sep] + b == [sep] + b;
      assert ([sep] + b)[1..] == b;
    } else {
      SplitAtFirstSep(a[1..], b, sep);
      assert (a + [sep] + b)[1..] == a[1..] + [sep] + b;
      assert [a[0]] + a[1..] == a;
    }
  }

  /** `pat in s` for strings. */
  function Contains(s: string, pat: string): bool
    decreases |s|
  {
    pat <= s || (s != [] && Contains(s[1..], pat))
  }

  /** An occurrence of `pat` at position `k` makes `pat in s` true. */
  lemma {:induction false} ContainsAt(s: string, pat: string, k: nat)
    requires k + |pat| <= |s| && s[k..k + |pat|] == pat
    ensures Contains(s, pat)
    decreases k
  {
    if k > 0 {
      assert s[1..][k - 1..k - 1 + |pat|] == s[k..k + |pat|];
      ContainsAt(s[1..], pat, k - 1);
    }
  }

  /** `c.lower()` for one character; only the ASCII capitals change. */
  function LowerChar(c: char): char
  {
    if 'A' <= c <= 'Z' then (c as int + 32) as char else c
  }

  /** `s.lower()`. */
  function Lower(s: string): (r: string)
    ensures |r| == |s|
  {
    seq(|s|, i requires 0 <= i < |s| => LowerChar(s[i]))
  }

  /** The characters `str.isspace()` accepts in the ASCII range. */
  predicate IsSpace(c: char)
  {
    9 <= c as int <= 13 || 28 <= c as int <= 32
  }

  /**
   * The white space `float()` skips around a literal: tab, line feed, vertical
   * tab, form feed, carriage return and space, but not the information
   * separators U+001C to U+001F that `str.isspace()` also accepts.
   */
  predicate IsFloatSpace(c: char)
  {
    9 <= c as int <= 13 || c == ' '
  }

  /** `s` without the leading characters `space` accepts. */
  function TrimLeft(s: string, space: char -> bool): (r: string)
    decreases |s|
  {
    if s != [] && space(s[0]) then TrimLeft(s[1..], space) else s
  }

  /** `s` without the trailing characters `space` accepts. */
  function TrimRight(s: string, space: char -> bool): (r: string)
    decreases |s|
  {
    if s != [] && space(s[|s| - 1]) then TrimRight(s[..|s| - 1], space) else s
  }

  /** Leading white space is dropped up to the first other character. */
  lemma {:induction false} TrimLeftSpaces(ws: string, t: string, space: char -> bool)
    requires forall i :: 0 <= i < |ws| ==> space(ws[i])
    requires t != [] && !space(t[0])
    ensures TrimLeft(ws + t, space) == t
    decreases |ws|
  {
    if ws != [] {
      assert (ws + t)[1..] == ws[1..] + t;
      TrimLeftSpaces(ws[1..], t, space);
    } else {
      assert ws + t == t;
    }
  }

  /** Trailing white space is never taken from before a character that is not white space. */
  lemma {:induction false} TrimRightStopsAt(a: string, c: char, b: string, space: char -> bool)
    requires !space(c)
    ensures TrimRight(a + [c] + b, space) == a + [c] + TrimRight(b, space)
    decreases |b|
  {
    if b == [] {
      assert a + [c] + b == a + [c];
    } else {
      assert (a + [c] + b)[|a + [c] + b| - 1] == b[|b| - 1];
      assert (a + [c] + b)[..|a + [c] + b| - 1] == a + [c] + b[..|b| - 1];
      TrimRightStopsAt(a, c, b[..|b| - 1], space);
    }
  }

  /** `s.strip()`: leading and trailing white space removed. */
  function Strip(s: string): string
  {
    TrimRight(TrimLeft(s, IsSpace), IsSpace)
  }

  predicate IsDigit(c: char)
  {
    '0' <= c <= '9'
  }

  predicate AllDigits(s: string)
  {
    forall i :: 0 <= i < |s| ==> IsDigit(s[i])
  }

  /** The value of a string of decimal digits (most significant first). */
  function DigitsValue(s: string): nat
    requires AllDigits(s)
    decreases |s|
  {
    if s == [] then 0 else DigitsValue(s[..|s| - 1]) * 10 + (s[|s| - 1] as int - '0' as int)
  }

  function Pow10(n: nat): (p: nat)
    ensures p >= 1
  {
    if n == 0 then 1 else 10 * Pow10(n - 1)
  }

  /** An unsigned decimal literal `ddd`, `ddd.`, `.ddd` or `ddd.ddd`. */
  function ParseUnsignedDecimal(t: string): Option<real>
  {
    var pieces := Split(t, '.');
    if |pieces| == 1 then
      if t != [] && AllDigits(t) then Some(DigitsValue(t) as real) else None
    else if |pieces| == 2 && AllDigits(pieces[0]) && AllDigits(pieces[1])
            && (pieces[0] != [] || pieces[1] != []) then
      Some(DigitsValue(pieces[0]) as real
           + DigitsValue(pieces[1]) as real / Pow10(|pieces[1]|) as real)
    else None
  }

  /** `float(s)` on a decimal literal with an optional sign and surrounding white space. */
  function ParseFloat(s: string): Option<real>
  {
    var t := TrimRight(TrimLeft(s, IsFloatSpace), IsFloatSpace);
    if t != [] && (t[0] == '+' || t[0] == '-') then
      match ParseUnsignedDecimal(t[1..])
      case None => None
      case Some(v) => Some(if t[0] == '-' then -v else v)
    else ParseUnsignedDecimal(t)
  }

  /**
   * `str.strip()` removes a leading U+001F but `float()` does not, so a field
   * led by one is not a number.
   */
  lemma FloatKeepsSeparators()
    ensures Strip(['\U{1F}', '1', '2', '.', '3']) == "12.3"
    ensures ParseFloat(['\U{1F}', '1', '2', '.', '3']).None?
  {
    var s := ['\U{1F}', '1', '2', '.', '3'];
    assert s[1..] == "12.3";
    assert TrimLeft(s, IsSpace) == TrimLeft("12.3", IsSpace) == "12.3";
    assert TrimRight("12.3", IsSpace) == "12.3";
    assert TrimLeft(s, IsFloatSpace) == s;
    assert TrimRight(s, IsFloatSpace) == s;
    assert s == ['\U{1F}', '1', '2'] + ['.'] + "3";
    SplitAtFirstSep(['\U{1F}', '1', '2'], "3", '.');
    SplitWithoutSep("3", '.');
    assert !IsDigit(s[0]);
  }
}
