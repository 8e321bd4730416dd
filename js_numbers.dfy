/**
 * Integer text conversions: `String(n)` for an integer `n`, and the integer part of what
 * `parseInt`/`parseFloat` read (leading white space, an optional sign, a run of digits).
 */
module JsNumbers {
  import opened Wrappers
  import opened JsStrings

  predicate IsDigit(c: char) {
    '0' <= c <= '9'
  }

  function DigitValue(c: char): nat
    requires IsDigit(c)
  {
    c as int - '0' as int
  }

  function DigitChar(d: nat): (c: char)
    requires d < 10
    ensures IsDigit(c) && DigitValue(c) == d
  {
    ('0' as int + d) as char
  }

  predicate AllDigits(s: string) {
    forall i :: 0 <= i < |s| ==> IsDigit(s[i])
  }

  /** The decimal digits of `n`, most significant first, without leading zeros. */
  function NatToString(n: nat): (s: string)
    ensures |s| >= 1 && AllDigits(s)
    decreases n
  {
    if n < 10 then [DigitChar(n)] else NatToString(n / 10) + [DigitChar(n % 10)]
  }

  /** `String(n)` for an integer number `n`. */
  function IntToString(n: int): string {
    if n < 0 then "-" + NatToString(-n) else NatToString(n)
  }

  /** The value of a run of decimal digits, most significant first. */
  function DigitsValue(d: string): nat
    requires AllDigits(d)
  {
    if d == [] then 0 else 10 * DigitsValue(d[..|d| - 1]) + DigitValue(d[|d| - 1])
  }

  /** The longest prefix of `s` made of digits. */
  function DigitRun(s: string): (d: string)
    ensures d <= s && AllDigits(d)
    ensures |d| < |s| ==> !IsDigit(s[|d|])
  {
    if s != [] && IsDigit(s[0]) then [s[0]] + DigitRun(s[1..]) else []
  }

  /**
   * What `parseInt(s)` and `parseFloat(s)` read from `s`, restricted to integers: skip
   * leading white space, accept one optional sign, then the longest run of digits.
   * `None` stands for `NaN` (no digit where the number should start).
   */
  function ParseLeadingInt(s: string): Option<int> {
    var t := TrimStart(s);
    if t != [] && (t[0] == '-' || t[0] == '+') then
      var d := DigitRun(t[1..]);
      var v: int := if d == [] then 0 else DigitsValue(d);
      if d == [] then None else Some(if t[0] == '-' then -v else v)
    else
      var d := DigitRun(t);
      if d == [] then None else Some(DigitsValue(d))
  }

  lemma {:induction false} DigitsValueOfNatToString(n: nat)
    ensures DigitsValue(NatToString(n)) == n
    decreases n
  {
    var s := NatToString(n);
    if n >= 10 {
      DigitsValueOfNatToString(n / 10);
      assert s[..|s| - 1] == NatToString(n / 10);
    }
  }

  lemma {:induction false} DigitRunOfDigits(s: string)
    requires AllDigits(s)
    ensures DigitRun(s) == s
  {
    if s != [] {
      DigitRunOfDigits(s[1..]);
      assert s == [s[0]] + s[1..];
    }
  }

  /** `parseInt(String(n)) == n` (and the same for `parseFloat`) for every integer `n`. */
  lemma {:induction false} ParseIntToString(n: int)
    ensures ParseLeadingInt(IntToString(n)) == Some(n)
  {
    var s := IntToString(n);
    var m: nat := if n < 0 then -n else n;
    var digits := NatToString(m);
    DigitsValueOfNatToString(m);
    DigitRunOfDigits(digits);
    if n < 0 {
      assert s == "-" + digits;
      assert !IsSpace(s[0]);
      assert TrimStart(s) == s;
      assert s[1..] == digits;
    } else {
      assert s == digits;
      assert IsDigit(s[0]) && !IsSpace(s[0]);
      assert TrimStart(s) == s;
    }
  }

  /** Text that, after white space, starts with neither a sign nor a digit parses to `NaN`. */
  lemma ParseRejects(s: string)
    requires var t := TrimStart(s); t == [] || (t[0] != '-' && t[0] != '+' && !IsDigit(t[0]))
    ensures ParseLeadingInt(s) == None
  {
  }
}
