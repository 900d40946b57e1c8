/**
 * The JavaScript string operations the source relies on, over `seq<char>`:
 * `startsWith`, `endsWith`, `includes`, `split(sep)[0]`, `trim() === ""`
 * and `toLowerCase`.
 */
module Strings {
  import opened Wrappers

  predicate StartsWith(s: string, p: string) {
    |p| <= |s| && s[..|p|] == p
  }

  predicate EndsWith(s: string, p: string) {
    |p| <= |s| && s[|s| - |p|..] == p
  }

  /** `p` occurs in `s` starting at position `k`. */
  predicate OccursAt(s: string, p: string, k: nat) {
    k + |p| <= |s| && s[k..k + |p|] == p
  }

  /** JavaScript's `s.includes(p)`. */
  predicate Contains(s: string, p: string)
    decreases |s|
  {
    StartsWith(s, p) || (|s| > 0 && Contains(s[1..], p))
  }

  /** JavaScript truthiness of an optional string: present and non-empty. */
  predicate Truthy(s: Option<string>) {
    s.Some? && s.value != ""
  }

  /** `s || d` on a string: a missing or empty value becomes `d`. */
  function TextOr(s: Option<string>, d: string): (r: string)
    ensures d != "" ==> r != ""
    ensures Truthy(s) ==> r == s.value
    ensures !Truthy(s) ==> r == d
  {
    if Truthy(s) then s.value else d
  }

  /** `includes` finds `p` exactly when `p` occurs at some position. */
  lemma {:induction false} ContainsIff(s: string, p: string)
    ensures Contains(s, p) <==> exists k: nat :: OccursAt(s, p, k)
    decreases |s|
  {
    if StartsWith(s, p) {
      assert OccursAt(s, p, 0);
    } else if |s| > 0 {
      ContainsIff(s[1..], p);
      if Contains(s[1..], p) {
        var k: nat :| OccursAt(s[1..], p, k);
        assert s[1..][k..k + |p|] == s[k + 1..k + 1 + |p|];
        assert OccursAt(s, p, k + 1);
      }
      if k: nat :| OccursAt(s, p, k) {
        assert k != 0;
        assert s[1..][k - 1..k - 1 + |p|] == s[k..k + |p|];
        assert OccursAt(s[1..], p, k - 1);
      }
    }
  }

  /** Every text includes the empty text. */
  lemma ContainsEmpty(s: string)
    ensures Contains(s, "")
  {
    assert StartsWith(s, "");
  }

  /** Every text includes itself. */
  lemma ContainsSelf(s: string)
    ensures Contains(s, s)
  {
    assert StartsWith(s, s);
  }

  /** A text that includes `p + q` includes `p`. */
  lemma ContainsPrefixOf(s: string, p: string, q: string)
    requires Contains(s, p + q)
    ensures Contains(s, p)
  {
    ContainsIff(s, p + q);
    var k: nat :| OccursAt(s, p + q, k);
    assert s[k..k + |p|] == s[k..k + |p + q|][..|p|] == (p + q)[..|p|] == p;
    assert OccursAt(s, p, k);
    ContainsIff(s, p);
  }

  /** JavaScript's `s.split(sep)[0]`: the text before the first `sep`, or all of `s`. */
  function Before(s: string, sep: string): string
    requires sep != ""
    decreases |s|
  {
    if s == [] || StartsWith(s, sep) then "" else [s[0]] + Before(s[1..], sep)
  }

  /**
   * `Before` yields the prefix of `s` that ends where `sep` first occurs,
   * and all of `s` when `sep` does not occur.
   */
  lemma {:induction false} BeforeSpec(s: string, sep: string)
    requires sep != ""
    ensures StartsWith(s, Before(s, sep))
    ensures forall k: nat :: k < |Before(s, sep)| ==> !OccursAt(s, sep, k)
    ensures |Before(s, sep)| < |s| ==> OccursAt(s, sep, |Before(s, sep)|)
    decreases |s|
  {
    if s != [] && !StartsWith(s, sep) {
      BeforeSpec(s[1..], sep);
      var r := Before(s[1..], sep);
      assert Before(s, sep) == [s[0]] + r;
      forall k: nat | k < |r| + 1 ensures !OccursAt(s, sep, k) {
        if k > 0 && OccursAt(s, sep, k) {
          assert s[1..][k - 1..k - 1 + |sep|] == s[k..k + |sep|];
          assert OccursAt(s[1..], sep, k - 1);
        }
      }
      if |r| + 1 < |s| {
        assert s[1..][|r|..|r| + |sep|] == s[|r| + 1..|r| + 1 + |sep|];
      }
    }
  }

  /** When `sep` does not occur in `s`, `split(sep)[0]` is `s` itself. */
  lemma BeforeAbsent(s: string, sep: string)
    requires sep != ""
    requires forall k: nat :: !OccursAt(s, sep, k)
    ensures Before(s, sep) == s
  {
    BeforeSpec(s, sep);
  }

  /** `split(sep)[0]` of `base + sep + rest` is `base` when `sep` is not in `base + sep[..|sep|-1]`. */
  lemma BeforeFirstSeparator(base: string, sep: string, rest: string)
    requires sep != ""
    requires forall k: nat :: k < |base| ==> !OccursAt(base + sep + rest, sep, k)
    ensures Before(base + sep + rest, sep) == base
  {
    var s := base + sep + rest;
    BeforeSpec(s, sep);
    var r := Before(s, sep);
    assert OccursAt(s, sep, |base|) by {
      assert s[|base|..|base| + |sep|] == sep;
    }
    assert |r| <= |base|;
    assert s[..|r|] == r;
    assert r == s[..|base|] == base;
  }

  /** JavaScript whitespace as `String.prototype.trim` removes it. */
  predicate IsSpace(c: char) {
    c == ' ' || c == '\t' || c == '\n' || c == '\r' || c == '\U{B}' || c == '\U{C}'
    || c == '\U{A0}' || c == '\U{1680}' || ('\U{2000}' <= c <= '\U{200A}')
    || c == '\U{2028}' || c == '\U{2029}' || c == '\U{202F}' || c == '\U{205F}'
    || c == '\U{3000}' || c == '\U{FEFF}'
  }

  /** `s.trim()` is empty. */
  predicate IsBlank(s: string) {
    forall i :: 0 <= i < |s| ==> IsSpace(s[i])
  }

  /**
   * A capital of Latin Extended-A whose small letter is the next code point
   * (U+0130, dotted capital I, lower-cases to two characters and is kept).
   */
  predicate PairedCapital(n: int) {
    || (0x100 <= n <= 0x12F && n % 2 == 0)
    || (0x132 <= n <= 0x137 && n % 2 == 0)
    || (0x139 <= n <= 0x148 && n % 2 == 1)
    || (0x14A <= n <= 0x177 && n % 2 == 0)
    || (0x179 <= n <= 0x17E && n % 2 == 1)
  }

  /**
   * `toLowerCase` on the capitals of Basic Latin, Latin-1, Latin Extended-A,
   * the Greek and the Cyrillic basic alphabets, one character at a time;
   * other characters are kept.
   */
  function LowerChar(c: char): char {
    var n := c as int;
    if 'A' <= c <= 'Z' || (0xC0 <= n <= 0xDE && n != 0xD7) then (n + 32) as char
    else if PairedCapital(n) then (n + 1) as char
    else if n == 0x178 then '\U{FF}'
    else if n == 0x386 then '\U{3AC}'
    else if 0x388 <= n <= 0x38A then (n + 37) as char
    else if n == 0x38C then '\U{3CC}'
    else if 0x38E <= n <= 0x38F then (n + 63) as char
    else if 0x391 <= n <= 0x3AB && n != 0x3A2 then (n + 32) as char
    else if 0x400 <= n <= 0x40F then (n + 80) as char
    else if 0x410 <= n <= 0x42F then (n + 32) as char
    else c
  }

  function Lower(s: string): (r: string)
    ensures |r| == |s|
    ensures forall i :: 0 <= i < |s| ==> r[i] == LowerChar(s[i])
  {
    seq(|s|, i requires 0 <= i < |s| => LowerChar(s[i]))
  }

  /** Lower-casing twice is lower-casing once. */
  lemma LowerIdempotent(s: string)
    ensures Lower(Lower(s)) == Lower(s)
  {
  }

  /** Lower-casing works character by character, so it distributes over concatenation. */
  lemma LowerAppend(a: string, b: string)
    ensures Lower(a + b) == Lower(a) + Lower(b)
  {
  }

  /** Digit characters of a non-negative number, most significant first. */
  function Digits(n: nat): string
    decreases n
  {
    if n < 10 then [(48 + n) as char] else Digits(n / 10) + [(48 + n % 10) as char]
  }

  /** JavaScript's rendering of an integer as text. */
  function IntText(n: int): string {
    if n < 0 then "-" + Digits(-n) else Digits(n)
  }
}
