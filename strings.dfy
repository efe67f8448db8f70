/**
 * The string primitives the source relies on, in JavaScript's terms: `toLowerCase` (ASCII
 * letters only), `includes`, `trim`, the `\s` `\d` `\w` character classes, decimal
 * printing of whole numbers, `parseInt(·, 10)` of a digit run and `Array.prototype.join`.
 */
module Strings {

  /** `toLowerCase` on one character, restricted to ASCII letters. */
  function LowerChar(c: char): char {
    if 'A' <= c <= 'Z' then (c as int + 32) as char else c
  }

  function Lower(s: string): (r: string)
    ensures |r| == |s|
    ensures forall i :: 0 <= i < |s| ==> r[i] == LowerChar(s[i])
  {
    seq(|s|, i requires 0 <= i < |s| => LowerChar(s[i]))
  }

  /** A string that lower-casing leaves as it is (no ASCII upper-case letter). */
  predicate IsLowerCase(s: string) {
    forall i :: 0 <= i < |s| ==> LowerChar(s[i]) == s[i]
  }

  /** `k` occurs in `s` starting at index `i`. */
  predicate OccursAt(s: string, k: string, i: int) {
    0 <= i && i + |k| <= |s| && s[i..i + |k|] == k
  }

  /** `s.includes(k)`: true for the empty `k`. */
  predicate Includes(s: string, k: string) {
    exists i | 0 <= i <= |s| :: OccursAt(s, k, i)
  }

  /** `ks.some((k) => s.includes(k))`. */
  predicate IncludesAny(s: string, ks: seq<string>) {
    exists j | 0 <= j < |ks| :: Includes(s, ks[j])
  }

  /** An occurrence of a string is also an occurrence of each of its prefixes. */
  lemma IncludesPrefix(s: string, k: string, n: nat)
    requires Includes(s, k) && n <= |k|
    ensures Includes(s, k[..n])
  {
    var i :| 0 <= i <= |s| && OccursAt(s, k, i);
    assert s[i..i + n] == s[i..i + |k|][..n];
    assert OccursAt(s, k[..n], i);
  }

  /** Lower-casing a message keeps every occurrence of a lower-case keyword. */
  lemma LowerKeepsIncludes(s: string, k: string)
    requires Includes(s, k) && IsLowerCase(k)
    ensures Includes(Lower(s), k)
  {
    var i :| 0 <= i <= |s| && OccursAt(s, k, i);
    var l := Lower(s);
    forall j | 0 <= j < |k|
      ensures l[i..i + |k|][j] == k[j]
    {
      assert s[i + j] == k[j];
    }
    assert l[i..i + |k|] == k;
    assert OccursAt(l, k, i);
  }

  /** The characters JavaScript's `\s` matches and `trim` removes (white space and line terminators). */
  predicate IsJsSpace(c: char) {
    c == '\t' || c == '\n' || c == '\U{000B}' || c == '\U{000C}' || c == '\r' || c == ' '
    || c == '\U{00A0}' || c == '\U{1680}' || ('\U{2000}' <= c <= '\U{200A}')
    || c == '\U{2028}' || c == '\U{2029}' || c == '\U{202F}' || c == '\U{205F}'
    || c == '\U{3000}' || c == '\U{FEFF}'
  }

  /** `\d`: the ASCII digits. */
  predicate IsDigit(c: char) {
    '0' <= c <= '9'
  }

  /** `\w`: ASCII letters, digits and the underscore. */
  predicate IsWordChar(c: char) {
    ('a' <= c <= 'z') || ('A' <= c <= 'Z') || IsDigit(c) || c == '_'
  }

  /** The end of the run of characters satisfying `p` that starts at `i` (greedy `p*`). */
  function SkipWhile(s: string, i: nat, p: char -> bool): (j: nat)
    requires i <= |s|
    ensures i <= j <= |s|
    ensures forall k :: i <= k < j ==> p(s[k])
    ensures j < |s| ==> !p(s[j])
    decreases |s| - i
  {
    if i == |s| || !p(s[i]) then i else SkipWhile(s, i + 1, p)
  }

  /** Index of the first character that is not white space. */
  function LeadingSpaces(s: string): (n: nat)
    ensures n <= |s|
    ensures forall i :: 0 <= i < n ==> IsJsSpace(s[i])
    ensures n < |s| ==> !IsJsSpace(s[n])
  {
    SkipWhile(s, 0, IsJsSpace)
  }

  /** Index just after the last character that is not white space. */
  function TrailingStart(s: string): (n: nat)
    ensures n <= |s|
    ensures forall i :: n <= i < |s| ==> IsJsSpace(s[i])
    ensures n > 0 ==> !IsJsSpace(s[n - 1])
  {
    if s == [] || !IsJsSpace(s[|s| - 1]) then |s| else TrailingStart(s[..|s| - 1])
  }

  /**
   * `s.trim()`: the infix of `s` between its leading and trailing white space. It is empty
   * exactly when `s` is white space only.
   */
  function Trim(s: string): (r: string)
    ensures r == "" <==> forall i :: 0 <= i < |s| ==> IsJsSpace(s[i])
    ensures r != "" ==> !IsJsSpace(r[0]) && !IsJsSpace(r[|r| - 1])
    ensures exists a, b :: 0 <= a <= b <= |s| && r == s[a..b]
                          && (forall i :: 0 <= i < a ==> IsJsSpace(s[i]))
                          && (forall i :: b <= i < |s| ==> IsJsSpace(s[i]))
  {
    var a := LeadingSpaces(s);
    if a == |s| then
      assert s[0..0] == "";
      ""
    else
      var b := TrailingStart(s);
      assert !IsJsSpace(s[a]);
      assert IsJsSpace(s[a]) || a < b;
      var r := s[a..b];
      assert r[0] == s[a] && r[|r| - 1] == s[b - 1];
      assert r != "" by {
        assert |r| == b - a;
      }
      r
  }

  function DigitChar(d: nat): char
    requires d < 10
  {
    ('0' as int + d) as char
  }

  function DigitValue(c: char): nat
    requires IsDigit(c)
  {
    c as int - '0' as int
  }

  /** `parseInt(ds, 10)` of a run of ASCII digits (leading zeros allowed). */
  function DecimalValue(ds: string): nat
    requires forall i :: 0 <= i < |ds| ==> IsDigit(ds[i])
  {
    if ds == [] then 0 else DecimalValue(ds[..|ds| - 1]) * 10 + DigitValue(ds[|ds| - 1])
  }

  /** `${n}` for a whole number: its decimal digits, without leading zeros. */
  function NatToDecimal(n: nat): (r: string)
    ensures r != []
    ensures forall i :: 0 <= i < |r| ==> IsDigit(r[i])
    ensures |r| > 1 ==> r[0] != '0'
  {
    if n < 10 then [DigitChar(n)] else NatToDecimal(n / 10) + [DigitChar(n % 10)]
  }

  /** Printing a number and parsing the digits back gives the number. */
  lemma {:induction false} DecimalRoundTrip(n: nat)
    ensures DecimalValue(NatToDecimal(n)) == n
  {
    var r := NatToDecimal(n);
    if n >= 10 {
      DecimalRoundTrip(n / 10);
      assert r[..|r| - 1] == NatToDecimal(n / 10);
    }
  }

  /** `parts.join(sep)`. */
  function Join(parts: seq<string>, sep: string): string {
    if parts == [] then ""
    else if |parts| == 1 then parts[0]
    else parts[0] + sep + Join(parts[1..], sep)
  }

  /** A join is at least as long as its first part, and, with two or more parts, as its first two parts and a separator. */
  lemma {:induction false} JoinLength(parts: seq<string>, sep: string)
    ensures |Join(parts, sep)| >= (if parts == [] then 0 else |parts[0]|)
    ensures |parts| >= 2 ==> |Join(parts, sep)| >= |parts[0]| + |sep| + |parts[1]|
  {
    if |parts| >= 2 {
      JoinLength(parts[1..], sep);
    }
  }

  /** A join begins with its first part. */
  lemma JoinStartsWithFirst(parts: seq<string>, sep: string)
    requires parts != []
    ensures |Join(parts, sep)| >= |parts[0]|
    ensures Join(parts, sep)[..|parts[0]|] == parts[0]
  {
    if |parts| >= 2 {
      var rest := sep + Join(parts[1..], sep);
      assert Join(parts, sep) == parts[0] + rest;
      assert (parts[0] + rest)[..|parts[0]|] == parts[0];
    }
  }

  /** Every part occurs in the join. */
  lemma {:induction false} JoinIncludes(parts: seq<string>, sep: string, j: nat)
    requires j < |parts|
    ensures Includes(Join(parts, sep), parts[j])
  {
    var joined := Join(parts, sep);
    if j == 0 {
      JoinStartsWithFirst(parts, sep);
      assert OccursAt(joined, parts[0], 0);
    } else {
      var head := parts[0] + sep;
      var tail := Join(parts[1..], sep);
      assert joined == head + tail;
      JoinIncludes(parts[1..], sep, j - 1);
      var k := parts[j];
      assert parts[1..][j - 1] == k;
      var i :| 0 <= i <= |tail| && OccursAt(tail, k, i);
      assert joined[|head| + i..|head| + i + |k|] == tail[i..i + |k|];
      assert OccursAt(joined, k, |head| + i);
    }
  }
}
