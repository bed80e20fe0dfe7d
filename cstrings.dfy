/** The C string helpers the module leans on: `strcat2`, `strlen`, `toupper`
    and the decimal parse behind `atoi` and `strtoull`. */
module CStrings {

  /** A C string holds no NUL: its terminator ends it. */
  predicate CString(s: string)
  {
    '\0' !in s
  }

  /** The text of a C string. */
  type CText = s: string | CString(s) witness ""

  /** `strcat2(c, s)`: append `s` to the C string that continues from cursor
      `c` (its terminator is at `t`), and return the cursor of the new
      terminator. A NULL `s` is passed as "". */
  method StrCat2(buf: array<char>, c: nat, s: string, ghost t: nat) returns (end: nat)
    requires c <= t < buf.Length && buf[t] == '\0' && CString(buf[c..t])
    requires t + |s| < buf.Length
    modifies buf
    ensures end == t + |s|
    ensures buf[..t] == old(buf[..t])
    ensures buf[t..end] == s
    ensures buf[end] == '\0'
    ensures forall k :: end < k < buf.Length ==> buf[k] == old(buf[k])
  {
    var d := c;
    while buf[d] != '\0'
      invariant c <= d <= t
      decreases t - d
    {
      assert buf[d] == buf[c..t][d - c];
      d := d + 1;
    }
    assert d == t;
    var i := 0;
    while i < |s|
      invariant 0 <= i <= |s|
      invariant buf[..d] == old(buf[..d])
      invariant buf[d..d + i] == s[..i]
      invariant forall k :: d + i <= k < buf.Length ==> buf[k] == old(buf[k])
    {
      buf[d + i] := s[i];
      i := i + 1;
    }
    buf[d + |s|] := '\0';
    end := d + |s|;
  }

  /** A buffer that holds `written` and is zero from there on. */
  ghost predicate ZeroedAfter(buf: array<char>, written: string)
    reads buf
  {
    |written| <= buf.Length && buf[..|written|] == written
    && forall k :: |written| <= k < buf.Length ==> buf[k] == '\0'
  }

  /** Stepping the cursor over a terminator of a zeroed buffer. */
  lemma ZeroedAfterTerminator(buf: array<char>, written: string)
    requires ZeroedAfter(buf, written) && |written| < buf.Length
    ensures ZeroedAfter(buf, written + ['\0'])
  {
    assert buf[..|written| + 1] == buf[..|written|] + [buf[|written|]];
  }

  /** A buffer filled up to its last cell holds the text and its terminator. */
  lemma FilledBuffer(buf: array<char>, written: string)
    requires ZeroedAfter(buf, written) && buf.Length == |written| + 1
    ensures buf[..] == written + ['\0']
  {
    assert buf[..] == buf[..|written|] + [buf[|written|]];
  }

  /** `strcat2` on a zeroed buffer, from a cursor inside the string last
      written: what was written grows by `s`, the rest stays zero. */
  method Append(buf: array<char>, c: nat, s: string, ghost written: string) returns (end: nat)
    requires c <= |written| && CString(written[c..])
    requires |written| + |s| < buf.Length
    requires ZeroedAfter(buf, written)
    modifies buf
    ensures end == |written| + |s|
    ensures ZeroedAfter(buf, written + s)
  {
    assert buf[c..|written|] == written[c..];
    end := StrCat2(buf, c, s, |written|);
    assert buf[..end] == buf[..|written|] + buf[|written|..end];
  }

  /** `strlen(buf + from)`: the distance to the first NUL at or after `from`. */
  method StrLen(buf: array<char>, from: nat) returns (n: nat)
    requires from < buf.Length
    requires exists j :: from <= j < buf.Length && buf[j] == '\0'
    ensures from + n < buf.Length && buf[from + n] == '\0'
    ensures CString(buf[from..from + n])
  {
    n := 0;
    while buf[from + n] != '\0'
      invariant from + n < buf.Length
      invariant forall j :: from <= j < from + n ==> buf[j] != '\0'
      invariant exists j :: from + n <= j < buf.Length && buf[j] == '\0'
      decreases buf.Length - (from + n)
    {
      n := n + 1;
    }
  }

  /** `toupper` in the C locale. */
  function UpperChar(c: char): char
  {
    if 'a' <= c <= 'z' then (c as int - 32) as char else c
  }

  /** Every character of `s` through `toupper`. */
  function Upper(s: string): (r: string)
    ensures |r| == |s|
    ensures forall i :: 0 <= i < |s| ==> r[i] == UpperChar(s[i])
  {
    seq(|s|, i requires 0 <= i < |s| => UpperChar(s[i]))
  }

  /** Upper-casing twice is upper-casing once. */
  lemma UpperIdempotent(s: string)
    ensures Upper(Upper(s)) == Upper(s)
  {
  }

  /** Upper-casing leaves no lower-case ASCII letter. */
  lemma UpperHasNoLowerCase(s: string)
    ensures forall i :: 0 <= i < |s| ==> !('a' <= Upper(s)[i] <= 'z')
  {
  }

  /** Upper-casing keeps a NUL-free string NUL-free. */
  lemma UpperKeepsCString(s: string)
    requires CString(s)
    ensures CString(Upper(s))
  {
  }

  predicate IsDigit(c: char)
  {
    '0' <= c <= '9'
  }

  function DigitValue(c: char): nat
    requires IsDigit(c)
  {
    c as int - '0' as int
  }

  function DigitChar(d: nat): (c: char)
    requires d < 10
    ensures IsDigit(c) && DigitValue(c) == d
  {
    ('0' as int + d) as char
  }

  /** The longest prefix of `s` made of decimal digits. */
  function LeadingDigits(s: string): (r: string)
    ensures |r| <= |s| && r == s[..|r|]
    ensures forall i :: 0 <= i < |r| ==> IsDigit(r[i])
    ensures |r| < |s| ==> !IsDigit(s[|r|])
  {
    if s == [] || !IsDigit(s[0]) then [] else [s[0]] + LeadingDigits(s[1..])
  }

  /** The number a string of decimal digits denotes. */
  function DigitsValue(s: string): nat
    requires forall i :: 0 <= i < |s| ==> IsDigit(s[i])
  {
    if s == [] then 0 else DigitsValue(s[..|s| - 1]) * 10 + DigitValue(s[|s| - 1])
  }

  /** `atoi` / `strtoull(s, NULL, 10)` on text that starts with its digits:
      the value of the leading digits, and 0 when there are none. */
  function ParseDecimal(s: string): (n: nat)
    ensures LeadingDigits(s) == [] ==> n == 0
  {
    DigitsValue(LeadingDigits(s))
  }

  /** The parse stops at the first non-digit: whatever follows the digits
      does not change the value. */
  lemma ParseDecimalIgnoresTail(digits: string, rest: string)
    requires forall i :: 0 <= i < |digits| ==> IsDigit(digits[i])
    requires rest == [] || !IsDigit(rest[0])
    ensures ParseDecimal(digits + rest) == DigitsValue(digits)
  {
    LeadingDigitsBeforeTail(digits, rest);
  }

  lemma {:induction false} LeadingDigitsBeforeTail(digits: string, rest: string)
    requires forall i :: 0 <= i < |digits| ==> IsDigit(digits[i])
    requires rest == [] || !IsDigit(rest[0])
    ensures LeadingDigits(digits + rest) == digits
  {
    if digits == [] {
      assert digits + rest == rest;
    } else {
      assert (digits + rest)[1..] == digits[1..] + rest;
      LeadingDigitsBeforeTail(digits[1..], rest);
    }
  }

  /** The decimal text PostgreSQL sends for a non-negative integer. */
  function DecimalText(n: nat): (s: string)
    ensures 0 < |s|
    ensures forall i :: 0 <= i < |s| ==> IsDigit(s[i])
  {
    if n < 10 then [DigitChar(n)] else DecimalText(n / 10) + [DigitChar(n % 10)]
  }

  /** A string that is all digits is its own leading-digit prefix. */
  lemma {:induction false} AllDigitsLeading(s: string)
    requires forall i :: 0 <= i < |s| ==> IsDigit(s[i])
    ensures LeadingDigits(s) == s
  {
    if s != [] {
      AllDigitsLeading(s[1..]);
    }
  }

  /** Reading back the decimal text of `n` gives `n`. */
  lemma {:induction false} DigitsValueOfDecimalText(n: nat)
    ensures DigitsValue(DecimalText(n)) == n
  {
    if n >= 10 {
      DigitsValueOfDecimalText(n / 10);
      var s := DecimalText(n);
      assert s[..|s| - 1] == DecimalText(n / 10);
    }
  }

  /** Parsing the decimal text of `n` gives `n`: the parse inverts rendering. */
  lemma ParseDecimalText(n: nat)
    ensures ParseDecimal(DecimalText(n)) == n
  {
    AllDigitsLeading(DecimalText(n));
    DigitsValueOfDecimalText(n);
  }

  /** `isspace` in the C locale: space, tab, newline, vertical tab, form feed
      and carriage return. */
  predicate IsSpace(c: char)
  {
    c == ' ' || 9 <= c as int <= 13
  }

  /** Text whose first character is neither a digit, white space nor a sign
      (which `atoi` and `strtoull` would skip or read) parses to 0, not to an
      error. */
  lemma NonNumericParsesToZero(s: string)
    requires s == [] || (!IsDigit(s[0]) && !IsSpace(s[0]) && s[0] != '+' && s[0] != '-')
    ensures ParseDecimal(s) == 0
  {
  }
}
