/** Decimal text for unsigned integers: Rust's `{}` and `{:02}` formatting
    of a `usize`/`u64`, the reading back of such text, and the splitting of
    a string at ':' that clock-style durations need. */
module Decimal {
  import opened Wrappers

  predicate IsDigit(c: char) {
    '0' <= c <= '9'
  }

  predicate AllDigits(s: string) {
    forall i :: 0 <= i < |s| ==> IsDigit(s[i])
  }

  function DigitChar(d: nat): (c: char)
    requires d < 10
    ensures IsDigit(c) && c as int - '0' as int == d
  {
    ('0' as int + d) as char
  }

  function DigitValue(c: char): (d: nat)
    requires IsDigit(c)
    ensures d < 10 && DigitChar(d) == c
  {
    c as int - '0' as int
  }

  /** `{}` on an unsigned integer: its decimal digits, most significant
      first, with no leading zero. */
  function Show(n: nat): (s: string)
    ensures 0 < |s| && AllDigits(s)
    ensures |s| == 1 <==> n < 10
    ensures |s| > 1 ==> s[0] != '0'
  {
    if n < 10 then [DigitChar(n)] else Show(n / 10) + [DigitChar(n % 10)]
  }

  /** The number a digit string denotes (leading zeros allowed). */
  function Value(s: string): nat
    requires AllDigits(s)
  {
    if s == [] then 0 else Value(s[..|s| - 1]) * 10 + DigitValue(s[|s| - 1])
  }

  /** Reads a non-empty digit string; anything else is rejected. */
  function Parse(s: string): (r: Option<nat>)
    ensures r.Some? <==> s != [] && AllDigits(s)
  {
    if s != [] && AllDigits(s) then Some(Value(s)) else None
  }

  /** Reading back what Show wrote gives the number. */
  lemma {:induction false} ValueShow(n: nat)
    ensures Value(Show(n)) == n
  {
    var s := Show(n);
    if n >= 10 {
      ValueShow(n / 10);
      assert s[..|s| - 1] == Show(n / 10);
    }
  }

  lemma ParseShow(n: nat)
    ensures Parse(Show(n)) == Some(n)
  {
    ValueShow(n);
  }

  /** A leading zero does not change the value of a digit string. */
  lemma {:induction false} ValueLeadingZero(s: string)
    requires AllDigits(s)
    ensures AllDigits("0" + s) && Value("0" + s) == Value(s)
    decreases |s|
  {
    var t := "0" + s;
    if s != [] {
      ValueLeadingZero(s[..|s| - 1]);
      assert t[..|t| - 1] == "0" + s[..|s| - 1];
    }
  }

  /** `{:02}` on an unsigned integer: at least two digits, zero-padded. */
  function Pad2(n: nat): (s: string)
    ensures AllDigits(s) && |s| >= 2
    ensures |s| == 2 <==> n < 100
    ensures Parse(s) == Some(n)
    ensures n >= 10 ==> s == Show(n)
  {
    ParseShow(n);
    if n < 10 then ValueLeadingZero(Show(n)); "0" + Show(n) else Show(n)
  }

  /** A string cut at every ':' (as `str::split(':')`): always at least one
      field, and no field contains ':'. */
  function Split(s: string): (r: seq<string>)
    ensures 0 < |r|
    ensures forall i :: 0 <= i < |r| ==> ':' !in r[i]
  {
    if s == [] then [[]]
    else if s[0] == ':' then [[]] + Split(s[1..])
    else var t := Split(s[1..]); [[s[0]] + t[0]] + t[1..]
  }

  /** A string without ':' is a single field. */
  lemma {:induction false} SplitNoColon(a: string)
    requires ':' !in a
    ensures Split(a) == [a]
  {
    if a != [] {
      assert a == [a[0]] + a[1..];
      SplitNoColon(a[1..]);
    }
  }

  /** A field followed by ':' splits off first. */
  lemma {:induction false} SplitField(a: string, rest: string)
    requires ':' !in a
    ensures Split(a + ":" + rest) == [a] + Split(rest)
  {
    if a == [] {
      assert a + ":" + rest == [':'] + rest;
      assert (a + ":" + rest)[1..] == rest;
    } else {
      SplitField(a[1..], rest);
      assert (a + ":" + rest)[1..] == a[1..] + ":" + rest;
      assert [a[0]] + a[1..] == a;
    }
  }

  lemma DigitsHaveNoColon(s: string)
    requires AllDigits(s)
    ensures ':' !in s
  {
  }
}
