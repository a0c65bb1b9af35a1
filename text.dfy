/**
 * The few PHP string primitives the command builder relies on: `trim`,
 * integer-to-string conversion, `strtolower`, the truthiness of a string
 * and the decimal value of a run of digits.
 */
module PhpText {

  datatype Option<+T> = None | Some(value: T)

  /** The characters PHP's `trim` strips by default: space, tab, newline,
      carriage return, NUL and vertical tab. */
  predicate IsTrimmed(c: char) {
    c == ' ' || c == '\t' || c == '\n' || c == '\r' || c == '\0' || c == '\U{0B}'
  }

  /** `ltrim($s)` */
  function TrimLeft(s: string): (r: string)
    ensures |r| <= |s| && r == s[|s| - |r|..]
    ensures r == [] || !IsTrimmed(r[0])
    ensures forall i :: 0 <= i < |s| - |r| ==> IsTrimmed(s[i])
  {
    if s != [] && IsTrimmed(s[0]) then TrimLeft(s[1..]) else s
  }

  /** `rtrim($s)` */
  function TrimRight(s: string): (r: string)
    ensures |r| <= |s| && r == s[..|r|]
    ensures r == [] || !IsTrimmed(r[|r| - 1])
    ensures forall i :: |r| <= i < |s| ==> IsTrimmed(s[i])
  {
    if s != [] && IsTrimmed(s[|s| - 1]) then TrimRight(s[..|s| - 1]) else s
  }

  /** `trim($s)` */
  function Trim(s: string): (r: string)
    ensures r == [] || (!IsTrimmed(r[0]) && !IsTrimmed(r[|r| - 1]))
  {
    TrimRight(TrimLeft(s))
  }

  /** A string whose two ends are not trimmable is left alone by `trim`. */
  lemma TrimSettled(s: string)
    requires s != [] && !IsTrimmed(s[0]) && !IsTrimmed(s[|s| - 1])
    ensures Trim(s) == s
  {
  }

  /** Trailing trimmable characters go, whatever comes before them. */
  lemma {:induction false} TrimRightAppend(a: string, b: string)
    requires a != [] && !IsTrimmed(a[|a| - 1])
    requires forall i :: 0 <= i < |b| ==> IsTrimmed(b[i])
    ensures TrimRight(a + b) == a
  {
    if b != [] {
      assert (a + b)[..|a + b| - 1] == a + b[..|b| - 1];
      TrimRightAppend(a, b[..|b| - 1]);
    } else {
      assert a + b == a;
    }
  }

  /** A trailing space after settled text is all `trim` removes. */
  lemma TrimTrailingSpace(s: string)
    requires s != [] && !IsTrimmed(s[0]) && !IsTrimmed(s[|s| - 1])
    ensures Trim(s + " ") == s
  {
    assert TrimLeft(s + " ") == s + " " by {
      assert (s + " ")[0] == s[0];
    }
    TrimRightAppend(s, " ");
  }

  /** PHP's `empty()` and `!$s` on a string: only "" and "0" are falsy. */
  predicate Falsy(s: string) {
    s == "" || s == "0"
  }

  predicate IsDigit(c: char) {
    '0' <= c <= '9'
  }

  function DigitChar(d: nat): (c: char)
    requires d < 10
    ensures IsDigit(c)
  {
    ['0', '1', '2', '3', '4', '5', '6', '7', '8', '9'][d]
  }

  function DigitValue(c: char): (d: nat)
    requires IsDigit(c)
    ensures d < 10
  {
    (c as int - '0' as int) as nat
  }

  /** Decimal rendering of a natural number, as PHP's string conversion
      writes it: no sign, no leading zeros. */
  function NatToString(n: nat): (r: string)
    ensures r != [] && (|r| > 1 ==> r[0] != '0')
    ensures forall i :: 0 <= i < |r| ==> IsDigit(r[i])
  {
    if n < 10 then [DigitChar(n)] else NatToString(n / 10) + [DigitChar(n % 10)]
  }

  /** `(string) $n` for an integer. */
  function IntToString(n: int): (r: string)
    ensures r != [] && !IsTrimmed(r[0]) && !IsTrimmed(r[|r| - 1])
    ensures r[0] == '-' <==> n < 0
  {
    if n < 0 then "-" + NatToString(-n) else NatToString(n)
  }

  /** The value of a run of decimal digits, as `(int)` reads it. */
  function DigitsValue(s: string): (v: nat)
    requires forall i :: 0 <= i < |s| ==> IsDigit(s[i])
  {
    if s == [] then 0 else DigitsValue(s[..|s| - 1]) * 10 + DigitValue(s[|s| - 1])
  }

  /** Reading back a rendered natural number gives the number. */
  lemma {:induction false} DigitsValueOfNatToString(n: nat)
    ensures DigitsValue(NatToString(n)) == n
  {
    if n >= 10 {
      var s := NatToString(n / 10) + [DigitChar(n % 10)];
      assert s[..|s| - 1] == NatToString(n / 10);
      DigitsValueOfNatToString(n / 10);
    }
  }

  /** `strtolower` on one ASCII character. */
  function LowerChar(c: char): char {
    if 'A' <= c <= 'Z' then (c as int + 32) as char else c
  }

  /** `strtolower($s)`: ASCII letters only, as PHP 8 and the C locale do. */
  function Lower(s: string): (r: string)
    ensures |r| == |s|
    ensures forall i :: 0 <= i < |s| ==> r[i] == LowerChar(s[i])
  {
    if s == [] then [] else [LowerChar(s[0])] + Lower(s[1..])
  }

  /** The blank characters `(int)` skips before a number. */
  predicate IsLeadingBlank(c: char) {
    c == ' ' || c == '\t' || c == '\n' || c == '\r' || c == '\U{0B}' || c == '\U{0C}'
  }

  /** The number of digits at the start of `s`. */
  function DigitRun(s: string): (n: nat)
    ensures n <= |s| && forall i :: 0 <= i < n ==> IsDigit(s[i])
    ensures n < |s| ==> !IsDigit(s[n])
  {
    if s != [] && IsDigit(s[0]) then 1 + DigitRun(s[1..]) else 0
  }

  /** `(int) $s` for a string written as an integer: leading blanks, an
      optional sign, then the longest run of digits; 0 when there is none. */
  function LeadingInt(s: string): int {
    if s != [] && IsLeadingBlank(s[0]) then LeadingInt(s[1..])
    else if s != [] && (s[0] == '-' || s[0] == '+') then
      var v: int := DigitsValue(s[1..][..DigitRun(s[1..])]);
      if s[0] == '-' then -v else v
    else DigitsValue(s[..DigitRun(s)])
  }

  /** `(int)` reads back what the string conversion of an integer wrote. */
  lemma LeadingIntOfIntToString(n: int)
    ensures LeadingInt(IntToString(n)) == n
  {
    var d := NatToString(if n < 0 then -n else n);
    DigitsValueOfNatToString(if n < 0 then -n else n);
    DigitRunAll(d);
    if n < 0 {
      assert IntToString(n)[1..] == d;
    } else {
      assert d[0] != '-' && d[0] != '+' && !IsLeadingBlank(d[0]);
    }
  }

  lemma {:induction false} DigitRunAll(s: string)
    requires forall i :: 0 <= i < |s| ==> IsDigit(s[i])
    ensures DigitRun(s) == |s| && s[..DigitRun(s)] == s
  {
    if s != [] {
      DigitRunAll(s[1..]);
    }
  }
}
