/**
 * The pieces of Java's string handling that the network's text format relies on:
 * `String.split` with a one-character separator, the decimal text of an `int`,
 * and `Integer.parseInt`.
 */
module Texto {
  import opened Wrappers

  /** Every piece between separators, empty pieces included (split with a negative limit). */
  function SplitAll(s: string, sep: char): (parts: seq<string>)
    ensures |parts| >= 1
  {
    if |s| == 0 then [""]
    else
      var rest := SplitAll(s[1..], sep);
      if s[0] == sep then [""] + rest else [[s[0]] + rest[0]] + rest[1..]
  }

  /** `parts` without its trailing empty strings. */
  function DropTrailingEmpty(parts: seq<string>): (r: seq<string>)
    ensures |r| <= |parts| && r == parts[..|r|]
    ensures |r| > 0 ==> r[|r| - 1] != ""
    ensures forall i :: |r| <= i < |parts| ==> parts[i] == ""
  {
    if |parts| == 0 then []
    else if parts[|parts| - 1] == "" then DropTrailingEmpty(parts[..|parts| - 1])
    else parts
  }

  /**
   * `s.split(sep)`: the pieces between separators with trailing empty pieces removed,
   * except that splitting the empty string gives one empty piece.
   */
  function JavaSplit(s: string, sep: char): seq<string>
  {
    if s == "" then [""] else DropTrailingEmpty(SplitAll(s, sep))
  }

  /**
   * What `split` gives: one empty piece for the empty string, the whole string when it
   * holds no separator, and otherwise the pieces between separators up to the last
   * non-empty one, every piece dropped after it being empty.
   */
  lemma JavaSplitPieces(s: string, sep: char)
    ensures s == "" ==> JavaSplit(s, sep) == [""]
    ensures sep !in s ==> JavaSplit(s, sep) == [s]
    ensures s != "" ==> var r, all := JavaSplit(s, sep), SplitAll(s, sep);
              |r| <= |all| && r == all[..|r|] && (|r| > 0 ==> r[|r| - 1] != "") &&
              forall i :: |r| <= i < |all| ==> all[i] == ""
  {
    if s != "" && sep !in s {
      SplitAllNoSeparator(s, sep);
    }
  }

  lemma {:induction false} SplitAllNoSeparator(a: string, sep: char)
    requires sep !in a
    ensures SplitAll(a, sep) == [a]
  {
    if |a| > 0 {
      SplitAllNoSeparator(a[1..], sep);
      assert [a[0]] + a[1..] == a;
    }
  }

  /** A piece free of separators followed by a separator splits off as the first piece. */
  lemma {:induction false} SplitAllPrefix(a: string, sep: char, b: string)
    requires sep !in a
    ensures SplitAll(a + [sep] + b, sep) == [a] + SplitAll(b, sep)
  {
    if |a| == 0 {
      assert a + [sep] + b == [sep] + b;
      assert ([sep] + b)[1..] == b;
    } else {
      SplitAllPrefix(a[1..], sep, b);
      assert (a + [sep] + b)[1..] == a[1..] + [sep] + b;
      assert [a[0]] + a[1..] == a;
    }
  }

  /** Dropping trailing empty pieces leaves a list whose last piece is non-empty as it is. */
  lemma DropTrailingEmptyKeeps(parts: seq<string>)
    requires |parts| > 0 && parts[|parts| - 1] != ""
    ensures DropTrailingEmpty(parts) == parts
  {
  }

  lemma DropTrailingEmptyOne(parts: seq<string>)
    requires |parts| > 0 && parts[|parts| - 1] != ""
    ensures DropTrailingEmpty(parts + [""]) == parts
  {
    assert (parts + [""])[..|parts|] == parts;
  }

  // ---------------------------------------------------------------------------
  // Decimal numerals.

  predicate IsDigit(c: char)
  {
    '0' <= c <= '9'
  }

  predicate AllDigits(s: string)
  {
    forall i :: 0 <= i < |s| ==> IsDigit(s[i])
  }

  function DigitChar(d: nat): (c: char)
    requires d < 10
    ensures IsDigit(c)
  {
    ['0', '1', '2', '3', '4', '5', '6', '7', '8', '9'][d]
  }

  function DigitValue(c: char): (d: nat)
    requires IsDigit(c)
    ensures d < 10
  {
    (c as int - '0' as int) as nat
  }

  /** The value of a string of decimal digits, most significant first. */
  function DigitsValue(s: string): nat
    requires AllDigits(s)
  {
    if |s| == 0 then 0 else DigitsValue(s[..|s| - 1]) * 10 + DigitValue(s[|s| - 1])
  }

  /** The decimal text Java writes for a non-negative `int`: no sign, no leading zeros. */
  function Decimal(n: nat): (s: string)
    ensures |s| > 0 && AllDigits(s)
    ensures ';' !in s && '\n' !in s
  {
    if n < 10 then [DigitChar(n)] else Decimal(n / 10) + [DigitChar(n % 10)]
  }

  lemma {:induction false} DecimalValue(n: nat)
    ensures DigitsValue(Decimal(n)) == n
  {
    if n >= 10 {
      DecimalValue(n / 10);
      var s := Decimal(n);
      assert s[..|s| - 1] == Decimal(n / 10);
      assert DigitValue(DigitChar(n % 10)) == n % 10;
    } else {
      assert DigitValue(DigitChar(n)) == n;
    }
  }

  const MinInt: int := -0x8000_0000
  const MaxInt: int := 0x7fff_ffff

  /**
   * `Integer.parseInt(s)`: an optional sign followed by at least one decimal digit,
   * with a value inside the range of `int`; anything else is a NumberFormatException (None).
   */
  function ParseJavaInt(s: string): (r: Option<int>)
    ensures r.Some? ==> MinInt <= r.value <= MaxInt
  {
    if |s| == 0 then None
    else if s[0] == '-' || s[0] == '+' then
      var digits := s[1..];
      if |digits| == 0 || !AllDigits(digits) then None
      else
        var magnitude: int := DigitsValue(digits);
        var v := if s[0] == '-' then -magnitude else magnitude;
        if MinInt <= v <= MaxInt then Some(v) else None
    else if AllDigits(s) && DigitsValue(s) <= MaxInt then Some(DigitsValue(s))
    else None
  }

  /** `Integer.parseInt` reads back the decimal text of every non-negative `int`. */
  lemma ParseDecimal(n: nat)
    requires n <= MaxInt
    ensures ParseJavaInt(Decimal(n)) == Some(n)
  {
    DecimalValue(n);
    assert IsDigit(Decimal(n)[0]);
  }
}
