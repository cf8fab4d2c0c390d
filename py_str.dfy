/**
 * The Python string operations the plugin relies on:
 * `str.replace(old, new, 1)` with the first-occurrence search it performs,
 * `str.strip()` and `str(int)` (used by the `"%s:%s"` labels), with a
 * decimal parser as the partner of `str(int)`.
 */
module PyStr {
  import opened Wrappers

  /** `pat` occurs in `s` starting at index `i`. */
  predicate OccursAt(s: string, pat: string, i: nat) {
    i + |pat| <= |s| && s[i..i + |pat|] == pat
  }

  /** `i` is where the first occurrence of `pat` in `s` starts. */
  predicate IsFirstOccurrence(s: string, pat: string, i: nat) {
    OccursAt(s, pat, i) && forall j: nat :: j < i ==> !OccursAt(s, pat, j)
  }

  /** An occurrence at `j >= 1` in `s` is an occurrence at `j - 1` in `s[1..]`. */
  lemma OccursAtShift(s: string, pat: string)
    requires |s| > 0
    ensures forall j: nat :: j >= 1 ==> (OccursAt(s, pat, j) <==> OccursAt(s[1..], pat, j - 1))
  {
    forall j: nat | j >= 1
      ensures OccursAt(s, pat, j) <==> OccursAt(s[1..], pat, j - 1)
    {
      if j + |pat| <= |s| {
        assert s[1..][j - 1..j - 1 + |pat|] == s[j..j + |pat|];
      }
    }
  }

  /** `s.find(pat)`: the index of the first occurrence, `None` for Python's -1. */
  function Find(s: string, pat: string): (r: Option<nat>)
    ensures r.Some? ==> IsFirstOccurrence(s, pat, r.value)
    ensures r.None? ==> forall j: nat :: !OccursAt(s, pat, j)
    decreases |s|
  {
    if OccursAt(s, pat, 0) then Some(0)
    else if |s| == 0 then None
    else
      OccursAtShift(s, pat);
      match Find(s[1..], pat)
      case None => None
      case Some(k) => Some(k + 1)
  }

  /** `s.replace(pat, repl, 1)`: the first occurrence of `pat` replaced by `repl`. */
  function ReplaceFirst(s: string, pat: string, repl: string): (r: string)
    ensures (forall j: nat :: !OccursAt(s, pat, j)) ==> r == s
    ensures forall k: nat :: IsFirstOccurrence(s, pat, k) ==> r == s[..k] + repl + s[k + |pat|..]
  {
    match Find(s, pat)
    case None => s
    case Some(k) => s[..k] + repl + s[k + |pat|..]
  }

  /**
   * Python's `str.isspace` on one character: the code points CPython treats
   * as whitespace.
   */
  predicate IsSpace(c: char) {
    var n := c as int;
    (0x09 <= n <= 0x0D) || (0x1C <= n <= 0x20) || n == 0x85 || n == 0xA0 || n == 0x1680
    || (0x2000 <= n <= 0x200A) || n == 0x2028 || n == 0x2029 || n == 0x202F
    || n == 0x205F || n == 0x3000
  }

  /** How many whitespace characters `s` starts with. */
  function LeadingSpaces(s: string): (n: nat)
    ensures n <= |s|
    ensures forall j :: 0 <= j < n ==> IsSpace(s[j])
    ensures n == |s| || !IsSpace(s[n])
  {
    if |s| > 0 && IsSpace(s[0]) then 1 + LeadingSpaces(s[1..]) else 0
  }

  /** How many whitespace characters `s` ends with. */
  function TrailingSpaces(s: string): (n: nat)
    ensures n <= |s|
    ensures forall j :: |s| - n <= j < |s| ==> IsSpace(s[j])
    ensures n == |s| || !IsSpace(s[|s| - n - 1])
  {
    if |s| > 0 && IsSpace(s[|s| - 1]) then 1 + TrailingSpaces(s[..|s| - 1]) else 0
  }

  /** `r` is `s[i..]` cut short, and what lies outside it in `s` is all whitespace. */
  predicate IsTrimmedAt(s: string, i: nat, r: string) {
    i + |r| <= |s| && r == s[i..i + |r|]
    && (forall j :: 0 <= j < i ==> IsSpace(s[j]))
    && (forall j :: i + |r| <= j < |s| ==> IsSpace(s[j]))
  }

  /**
   * `s.strip()`: the infix of `s` left after cutting off its leading and its
   * trailing whitespace; it neither starts nor ends with whitespace.
   */
  function Strip(s: string): (r: string)
    ensures IsTrimmedAt(s, LeadingSpaces(s), r)
    ensures r == [] || (!IsSpace(r[0]) && !IsSpace(r[|r| - 1]))
  {
    var i := LeadingSpaces(s);
    var k := TrailingSpaces(s[i..]);
    StripAt(s, i, s[i..], k);
    s[i..|s| - k]
  }

  /** Cutting `i` leading and `k` trailing whitespace characters, and no more, is a strip. */
  lemma StripAt(s: string, i: nat, t: string, k: nat)
    requires i <= |s| && t == s[i..] && k <= |t|
    requires forall j :: 0 <= j < i ==> IsSpace(s[j])
    requires i == |s| || !IsSpace(s[i])
    requires forall j :: |t| - k <= j < |t| ==> IsSpace(t[j])
    requires k == |t| || !IsSpace(t[|t| - k - 1])
    ensures IsTrimmedAt(s, i, s[i..|s| - k])
    ensures var r := s[i..|s| - k]; r == [] || (!IsSpace(r[0]) && !IsSpace(r[|r| - 1]))
  {
    forall j | |s| - k <= j < |s|
      ensures IsSpace(s[j])
    {
      assert s[j] == t[j - i];
    }
    if k < |t| {
      assert s[|s| - k - 1] == t[|t| - k - 1];
    }
  }

  predicate IsDigit(c: char) {
    '0' <= c <= '9'
  }

  function DigitChar(d: nat): (c: char)
    requires d < 10
    ensures IsDigit(c)
  {
    "0123456789"[d]
  }

  function DigitValue(c: char): nat
    requires IsDigit(c)
  {
    (c as int) - ('0' as int)
  }

  /** `str(n)` for a non-negative integer: its decimal digits, without leading zeros. */
  function NatToString(n: nat): (r: string)
    ensures |r| >= 1 && forall i :: 0 <= i < |r| ==> IsDigit(r[i])
    ensures r[0] == '0' ==> n == 0
  {
    if n < 10 then [DigitChar(n)] else NatToString(n / 10) + [DigitChar(n % 10)]
  }

  /** `str(n)`, as `"%s" % n` renders an `int`. */
  function IntToString(n: int): string {
    if n < 0 then "-" + NatToString(-n) else NatToString(n)
  }

  predicate AllDigits(s: string) {
    forall i :: 0 <= i < |s| ==> IsDigit(s[i])
  }

  /** The value of a string of decimal digits (Python's `int(s)` on such a string). */
  function ParseNat(s: string): nat
    requires AllDigits(s)
  {
    if s == [] then 0 else 10 * ParseNat(s[..|s| - 1]) + DigitValue(s[|s| - 1])
  }

  /** `s` is a decimal integer literal, optionally with a minus sign. */
  predicate IsIntLiteral(s: string) {
    AllDigits(s) || (|s| > 0 && s[0] == '-' && AllDigits(s[1..]))
  }

  /** `int(s)` on an optionally signed decimal string. */
  function ParseInt(s: string): int
    requires IsIntLiteral(s)
  {
    if |s| > 0 && s[0] == '-' then 0 - ParseNat(s[1..]) else ParseNat(s)
  }

  /** Appending a digit multiplies the value by ten and adds the digit. */
  lemma ParseNatSnoc(prefix: string, c: char)
    requires AllDigits(prefix) && IsDigit(c)
    ensures AllDigits(prefix + [c]) && ParseNat(prefix + [c]) == 10 * ParseNat(prefix) + DigitValue(c)
  {
    var s := prefix + [c];
    assert s[..|s| - 1] == prefix;
  }

  lemma DigitRoundTrip(d: nat)
    requires d < 10
    ensures DigitValue(DigitChar(d)) == d
  {
  }

  lemma {:induction false} ParseNatToString(n: nat)
    ensures ParseNat(NatToString(n)) == n
  {
    DigitRoundTrip(n % 10);
    if n < 10 {
      ParseNatSnoc([], DigitChar(n));
      assert [] + [DigitChar(n)] == NatToString(n);
    } else {
      var prefix := NatToString(n / 10);
      ParseNatToString(n / 10);
      ParseNatSnoc(prefix, DigitChar(n % 10));
    }
  }

  /** A decimal string for `|n|`, signed when `n` is negative, parses back to `n`. */
  lemma SignedParses(n: int, digits: string, s: string)
    requires AllDigits(digits) && ParseNat(digits) == (if n < 0 then -n else n)
    requires s == if n < 0 then "-" + digits else digits
    ensures IsIntLiteral(s) && ParseInt(s) == n
  {
    if n < 0 {
      assert s[1..] == digits;
    }
  }

  /** `int(str(n)) == n`: the rendering of an integer loses nothing. */
  lemma ParseIntToString(n: int)
    ensures IsIntLiteral(IntToString(n)) && ParseInt(IntToString(n)) == n
  {
    var m: nat := if n < 0 then -n else n;
    ParseNatToString(m);
    SignedParses(n, NatToString(m), IntToString(n));
  }

}
