/** File names as the organizer sees them: the last-dot split of a name into
    stem and suffix (the rule of Python's pathlib up to Python 3.13, where a
    trailing dot never starts a suffix), the hidden-file test,
    lower-casing of a suffix, and the decimal counters that collision
    resolution appends to a stem. */
module Names {

  type Name = string

  /** Index of the last '.' in `s`, or -1 when there is none. */
  function LastDot(s: string): (i: int)
    ensures -1 <= i < |s|
    ensures i == -1 ==> forall j :: 0 <= j < |s| ==> s[j] != '.'
    ensures i >= 0 ==> s[i] == '.' && forall j :: i < j < |s| ==> s[j] != '.'
  {
    if |s| == 0 then -1
    else if s[|s| - 1] == '.' then |s| - 1
    else LastDot(s[..|s| - 1])
  }

  /** The last dot is the one with no dot after it. */
  lemma LastDotAt(s: string, i: nat)
    requires i < |s| && s[i] == '.'
    requires forall j :: i < j < |s| ==> s[j] != '.'
    ensures LastDot(s) == i
  {
  }

  /** The last dot starts a suffix only when it is neither the first nor the
      last character of the name. */
  predicate HasSuffix(name: Name) {
    0 < LastDot(name) < |name| - 1
  }

  /** pathlib's `suffix`: the text from the last dot on, or "" */
  function Suffix(name: Name): (r: string)
    ensures HasSuffix(name) ==> |r| >= 2 && r[0] == '.' && forall j :: 1 <= j < |r| ==> r[j] != '.'
    ensures !HasSuffix(name) ==> r == ""
  {
    if HasSuffix(name) then name[LastDot(name)..] else ""
  }

  /** pathlib's `stem`: the name without its suffix */
  function Stem(name: Name): (r: string)
    ensures HasSuffix(name) ==> 0 < |r| < |name| - 1
    ensures !HasSuffix(name) ==> r == name
  {
    if HasSuffix(name) then name[..LastDot(name)] else name
  }

  lemma StemSuffixSplit(name: Name)
    ensures Stem(name) + Suffix(name) == name
  {
    if HasSuffix(name) {
      assert name == name[..LastDot(name)] + name[LastDot(name)..];
    }
  }

  /** Names starting with a dot are hidden and never organized. */
  predicate IsHidden(name: Name) {
    |name| > 0 && name[0] == '.'
  }

  /** `str.lower` on one character, as far as it can matter here: ASCII
      capitals, and KELVIN SIGN, the one non-ASCII character whose lower-case
      form is an ASCII letter. */
  function LowerChar(c: char): (r: char)
    ensures 'A' <= c <= 'Z' ==> r as int == c as int + 32
    ensures c == '\U{212A}' ==> r == 'k'
    ensures !('A' <= c <= 'Z') && c != '\U{212A}' ==> r == c
  {
    if 'A' <= c <= 'Z' then (c as int + 32) as char
    else if c == '\U{212A}' then 'k'
    else c
  }

  function Lower(s: string): (r: string)
    ensures |r| == |s|
    ensures forall i :: 0 <= i < |s| ==> r[i] == LowerChar(s[i])
  {
    seq(|s|, i requires 0 <= i < |s| => LowerChar(s[i]))
  }

  lemma {:induction false} LowerIdempotent(s: string)
    ensures Lower(Lower(s)) == Lower(s)
  {
    var t := Lower(s);
    forall i | 0 <= i < |s|
      ensures Lower(t)[i] == t[i]
    {
      assert t[i] == LowerChar(s[i]);
    }
  }

  predicate IsDigit(c: char) {
    '0' <= c <= '9'
  }

  function DigitChar(d: nat): (c: char)
    requires d < 10
    ensures IsDigit(c)
  {
    ('0' as int + d) as char
  }

  function DigitValue(c: char): (d: nat)
    requires IsDigit(c)
    ensures d < 10
  {
    c as int - '0' as int
  }

  /** The decimal numeral of `n` without leading zeros, as an f-string
      renders a Python int. */
  function Decimal(n: nat): (r: string)
    ensures |r| >= 1
    ensures forall i :: 0 <= i < |r| ==> IsDigit(r[i])
    ensures n >= 10 <==> |r| >= 2
  {
    if n < 10 then [DigitChar(n)] else Decimal(n / 10) + [DigitChar(n % 10)]
  }

  /** Reads a string of digits back as a number. */
  function ParseDecimal(s: string): (n: nat)
    requires forall i :: 0 <= i < |s| ==> IsDigit(s[i])
  {
    if |s| == 0 then 0 else 10 * ParseDecimal(s[..|s| - 1]) + DigitValue(s[|s| - 1])
  }

  lemma {:induction false} ParseDecimalRoundTrip(n: nat)
    ensures ParseDecimal(Decimal(n)) == n
  {
    var r := Decimal(n);
    if n >= 10 {
      assert r[..|r| - 1] == Decimal(n / 10);
      ParseDecimalRoundTrip(n / 10);
    }
  }

  lemma DecimalInjective(a: nat, b: nat)
    requires Decimal(a) == Decimal(b)
    ensures a == b
  {
    ParseDecimalRoundTrip(a);
    ParseDecimalRoundTrip(b);
  }
}
