/**
 * The string operations the pages use: `toLowerCase`, `includes`, `trim` and the decimal
 * rendering of numbers. Lower-casing and white space are ASCII-only here (plus the
 * non-ASCII white space `trim` removes that is listed in IsSpace).
 */
module Text {

  /** Lower-cases `A`..`Z`; every other character is kept. */
  function LowerChar(c: char): char {
    if 'A' <= c <= 'Z' then (c as int + 32) as char else c
  }

  /** `s.toLowerCase()` on ASCII letters. */
  function Lower(s: string): (r: string)
    ensures |r| == |s|
    ensures forall i :: 0 <= i < |s| ==> r[i] == LowerChar(s[i])
  {
    seq(|s|, i requires 0 <= i < |s| => LowerChar(s[i]))
  }

  /** Lower-casing twice is lower-casing once. */
  lemma LowerIdempotent(s: string)
    ensures Lower(Lower(s)) == Lower(s)
  {
  }

  predicate StartsWith(s: string, prefix: string) {
    |prefix| <= |s| && s[..|prefix|] == prefix
  }

  /** `s.includes(needle)`: `needle` occurs somewhere in `s`. */
  predicate Contains(s: string, needle: string) {
    StartsWith(s, needle) || (s != [] && Contains(s[1..], needle))
  }

  /** `needle` occupies positions `k` .. `k + |needle| - 1` of `s`. */
  predicate OccursAt(s: string, needle: string, k: int) {
    0 <= k <= |s| - |needle| && s[k..k + |needle|] == needle
  }

  /** `Contains` is exactly "some window of `s` equals `needle`". */
  lemma {:induction false} ContainsAt(s: string, needle: string)
    ensures Contains(s, needle) <==> exists k :: OccursAt(s, needle, k)
  {
    if s != [] {
      ContainsAt(s[1..], needle);
      if StartsWith(s, needle) {
        assert OccursAt(s, needle, 0);
      }
      if Contains(s[1..], needle) {
        var k :| OccursAt(s[1..], needle, k);
        assert s[k + 1..k + 1 + |needle|] == s[1..][k..k + |needle|];
        assert OccursAt(s, needle, k + 1);
      }
      if exists k :: OccursAt(s, needle, k) {
        var k :| OccursAt(s, needle, k);
        if k > 0 {
          assert s[1..][k - 1..k - 1 + |needle|] == s[k..k + |needle|];
          assert OccursAt(s[1..], needle, k - 1);
        } else {
          assert StartsWith(s, needle);
        }
      }
    } else {
      if Contains(s, needle) {
        assert OccursAt(s, needle, 0);
      }
      if exists k :: OccursAt(s, needle, k) {
        var k :| OccursAt(s, needle, k);
        assert needle == [];
        assert StartsWith(s, needle);
      }
    }
  }

  /** Every string includes the empty string, so an empty query matches everything. */
  lemma ContainsEmpty(s: string)
    ensures Contains(s, [])
  {
  }

  /**
   * The white space `String.prototype.trim` removes: tab, vertical tab, form feed, the
   * byte order mark, every space separator (category Zs, the ideographic space U+3000
   * included) and the four line terminators.
   */
  predicate IsSpace(c: char) {
    c == ' ' || c == '\t' || c == '\n' || c == '\r' ||
    c as int == 0x0B || c as int == 0x0C || c as int == 0xA0 || c as int == 0x1680 ||
    0x2000 <= c as int <= 0x200A || c as int == 0x202F || c as int == 0x205F || c as int == 0x3000 ||
    c as int == 0x2028 || c as int == 0x2029 || c as int == 0xFEFF
  }

  function TrimStart(s: string): (r: string)
    ensures |r| <= |s|
  {
    if s != [] && IsSpace(s[0]) then TrimStart(s[1..]) else s
  }

  function TrimEnd(s: string): (r: string)
    ensures |r| <= |s|
  {
    if s != [] && IsSpace(s[|s| - 1]) then TrimEnd(s[..|s| - 1]) else s
  }

  /** `s.trim()`. */
  function Trim(s: string): string {
    TrimEnd(TrimStart(s))
  }

  predicate AllSpace(s: string) {
    forall i :: 0 <= i < |s| ==> IsSpace(s[i])
  }

  lemma {:induction false} TrimStartEmpty(s: string)
    ensures TrimStart(s) == [] <==> AllSpace(s)
  {
    if s != [] && IsSpace(s[0]) {
      TrimStartEmpty(s[1..]);
      assert forall i :: 1 <= i < |s| ==> s[i] == s[1..][i - 1];
    }
  }

  lemma {:induction false} TrimEndEmpty(s: string)
    ensures TrimEnd(s) == [] <==> AllSpace(s)
  {
    if s != [] && IsSpace(s[|s| - 1]) {
      TrimEndEmpty(s[..|s| - 1]);
    }
  }

  /** TrimStart only drops white space from the front. */
  lemma {:induction false} TrimStartDropsSpace(s: string)
    ensures AllSpace(TrimStart(s)) ==> AllSpace(s)
  {
    if s != [] && IsSpace(s[0]) {
      TrimStartDropsSpace(s[1..]);
      assert forall i :: 1 <= i < |s| ==> s[i] == s[1..][i - 1];
    }
  }

  /** A trimmed string is empty exactly when the string is made of white space only. */
  lemma TrimEmpty(s: string)
    ensures Trim(s) == [] <==> AllSpace(s)
  {
    TrimStartEmpty(s);
    TrimEndEmpty(TrimStart(s));
    TrimStartDropsSpace(s);
  }

  function DigitChar(d: nat): char
    requires d < 10
  {
    ('0' as int + d) as char
  }

  function DigitValue(c: char): int {
    c as int - '0' as int
  }

  /** `String(n)` for a natural number: its decimal digits, no leading zero. */
  function NatToString(n: nat): (r: string)
    ensures |r| >= 1
    ensures forall i :: 0 <= i < |r| ==> '0' <= r[i] <= '9'
  {
    if n < 10 then [DigitChar(n)] else NatToString(n / 10) + [DigitChar(n % 10)]
  }

  /** `String(n).padStart(2, '0')`. */
  function PadTwo(n: nat): (r: string)
  {
    if n < 10 then "0" + NatToString(n) else NatToString(n)
  }

  /** Reads a string of decimal digits back as a number. */
  function ParseDigits(s: string): int {
    if s == [] then 0 else 10 * ParseDigits(s[..|s| - 1]) + DigitValue(s[|s| - 1])
  }

  /** Rendering a number and reading it back gives the number. */
  lemma {:induction false} NatToStringRoundTrip(n: nat)
    ensures ParseDigits(NatToString(n)) == n
  {
    if n >= 10 {
      NatToStringRoundTrip(n / 10);
      var s := NatToString(n);
      assert s[..|s| - 1] == NatToString(n / 10);
    }
  }

  /** A four-digit year renders as four characters. */
  lemma FourDigits(n: nat)
    requires 1000 <= n <= 9999
    ensures |NatToString(n)| == 4
  {
    assert |NatToString(n / 1000)| == 1;
    assert |NatToString(n / 100)| == 2;
    assert |NatToString(n / 10)| == 3;
  }

  /** A padded month or day is two characters and reads back as itself. */
  lemma PadTwoRoundTrip(n: nat)
    requires n < 100
    ensures |PadTwo(n)| == 2
    ensures ParseDigits(PadTwo(n)) == n
  {
    NatToStringRoundTrip(n);
    if n < 10 {
      assert PadTwo(n)[..1] == "0";
    } else {
      assert |NatToString(n / 10)| == 1;
    }
  }
}
