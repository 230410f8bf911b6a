/** The string operations the pages use: lower-casing, substring search,
    number-to-text and cutting a file name at its first dot. Case folding is
    ASCII only. */
module Text {

  /** `toLowerCase` on one character, for the ASCII letters A-Z. */
  function LowerChar(c: char): (r: char)
    ensures 'A' <= c <= 'Z' ==> r as int == c as int + 32
    ensures !('A' <= c <= 'Z') ==> r == c
  {
    if 'A' <= c <= 'Z' then (c as int + 32) as char else c
  }

  /** `s.toLowerCase()`. */
  function Lower(s: string): (r: string)
    ensures |r| == |s|
    ensures forall i :: 0 <= i < |s| ==> r[i] == LowerChar(s[i])
  {
    if s == [] then [] else [LowerChar(s[0])] + Lower(s[1..])
  }

  /** `haystack.includes(needle)`: `needle` occurs as a contiguous block. */
  predicate Contains(haystack: string, needle: string)
    decreases |haystack|
  {
    needle <= haystack || (haystack != [] && Contains(haystack[1..], needle))
  }

  /** Every string contains the empty string. */
  lemma ContainsEmpty(haystack: string)
    ensures Contains(haystack, "")
  {
  }

  /** `needle` sits in `haystack` starting at position `k`. */
  predicate OccursAt(haystack: string, needle: string, k: int) {
    0 <= k <= |haystack| - |needle| && haystack[k..k + |needle|] == needle
  }

  /** `includes` agrees with the positional definition of a substring. */
  lemma {:induction false} ContainsAt(haystack: string, needle: string)
    ensures Contains(haystack, needle) <==> exists k :: OccursAt(haystack, needle, k)
  {
    if needle <= haystack {
      assert OccursAt(haystack, needle, 0);
    }
    if haystack != [] {
      ContainsAt(haystack[1..], needle);
      if exists k :: OccursAt(haystack, needle, k) {
        var k :| OccursAt(haystack, needle, k);
        if k > 0 {
          assert OccursAt(haystack[1..], needle, k - 1);
        }
      }
      if exists k :: OccursAt(haystack[1..], needle, k) {
        var k :| OccursAt(haystack[1..], needle, k);
        assert OccursAt(haystack, needle, k + 1);
      }
    } else if exists k :: OccursAt(haystack, needle, k) {
      var k :| OccursAt(haystack, needle, k);
      assert needle == [];
    }
  }

  /** Decimal digits of a natural number, as template literals print it. */
  function NatToString(n: nat): (r: string)
    ensures |r| >= 1
    ensures forall i :: 0 <= i < |r| ==> '0' <= r[i] <= '9'
  {
    if n < 10 then [Digit(n)] else NatToString(n / 10) + [Digit(n % 10)]
  }

  function Digit(d: nat): (c: char)
    requires d < 10
    ensures '0' <= c <= '9' && c as int - '0' as int == d
  {
    ('0' as int + d) as char
  }

  /** The value of a string of decimal digits. */
  function DigitsValue(s: string): nat
    requires forall i :: 0 <= i < |s| ==> '0' <= s[i] <= '9'
  {
    if s == [] then 0 else 10 * DigitsValue(s[..|s| - 1]) + (s[|s| - 1] as int - '0' as int)
  }

  /** Printing a number and reading it back gives the number. */
  lemma {:induction false} NatToStringValue(n: nat)
    ensures DigitsValue(NatToString(n)) == n
  {
    if n >= 10 {
      NatToStringValue(n / 10);
      var s := NatToString(n);
      assert s[..|s| - 1] == NatToString(n / 10);
    }
  }

  /** The first piece of a split at '.': the text before the first dot, or all of `s`. */
  function BeforeFirstDot(s: string): (r: string)
    ensures r <= s
    ensures '.' !in r
    ensures |r| < |s| ==> s[|r|] == '.'
  {
    if s == [] || s[0] == '.' then [] else [s[0]] + BeforeFirstDot(s[1..])
  }
}
