/** The few Kotlin string operations the core relies on: `replace` of every
    occurrence, comparison ignoring case, `Int.toString()` and `isBlank()`. */
module Text {

  /** `p` occurs in `s` starting at index `i`. */
  predicate StartsAt(s: string, p: string, i: nat) {
    i + |p| <= |s| && s[i..i + |p|] == p
  }

  /** `s.contains(p)`. */
  predicate Occurs(s: string, p: string) {
    exists i: nat | i <= |s| :: StartsAt(s, p, i)
  }

  /** Kotlin's `s.replace(p, r)`: scans left to right and replaces every
      non-overlapping occurrence of `p` by `r`; the text produced by a
      replacement is never scanned again. */
  function ReplaceAll(s: string, p: string, r: string): string
    requires |p| > 0
    decreases |s|
  {
    if |s| < |p| then s
    else if s[..|p|] == p then r + ReplaceAll(s[|p|..], p, r)
    else [s[0]] + ReplaceAll(s[1..], p, r)
  }

  /** A text shorter than the pattern is left as it is. */
  lemma ReplaceAbsentShort(s: string, p: string, r: string)
    requires |p| > 0 && |s| < |p|
    ensures ReplaceAll(s, p, r) == s
  {
  }

  /** A head that does not start the pattern is copied and the scan moves on
      by one character. */
  lemma ReplaceMissesHead(s: string, p: string, r: string)
    requires |p| > 0 && |s| > 0 && !StartsAt(s, p, 0)
    ensures ReplaceAll(s, p, r) == [s[0]] + ReplaceAll(s[1..], p, r)
  {
    if |s| < |p| {
      ReplaceAbsentShort(s, p, r);
      ReplaceAbsentShort(s[1..], p, r);
      assert [s[0]] + s[1..] == s;
    }
  }

  /** No occurrence starting after the head of `s` means none in `s[1..]`. */
  lemma NoStartAfterHead(s: string, p: string, n: nat)
    requires 0 < |s| && n <= |s| + 1
    requires forall i: nat :: 0 < i < n ==> !StartsAt(s, p, i)
    ensures forall i: nat :: i < n - 1 ==> !StartsAt(s[1..], p, i)
  {
    forall i: nat | i < n - 1
      ensures !StartsAt(s[1..], p, i)
    {
      assert !StartsAt(s, p, i + 1);
      if i + |p| <= |s[1..]| {
        assert s[1..][i..i + |p|] == s[i + 1..i + 1 + |p|];
      }
    }
  }

  /** Replacing a pattern that does not occur leaves the text as it is. */
  lemma {:induction false} ReplaceAbsent(s: string, p: string, r: string)
    requires |p| > 0
    requires !Occurs(s, p)
    ensures ReplaceAll(s, p, r) == s
    decreases |s|
  {
    if |s| < |p| {
      ReplaceAbsentShort(s, p, r);
    } else {
      assert forall i: nat :: i <= |s| ==> !StartsAt(s, p, i);
      NoStartAfterHead(s, p, |s| + 1);
      ReplaceAbsent(s[1..], p, r);
      ReplaceMissesHead(s, p, r);
      assert [s[0]] + s[1..] == s;
    }
  }

  /** An occurrence at the head is replaced and scanning resumes after it. */
  lemma ReplaceAtHead(p: string, rest: string, r: string)
    requires |p| > 0
    ensures ReplaceAll(p + rest, p, r) == r + ReplaceAll(rest, p, r)
  {
    assert (p + rest)[..|p|] == p;
    assert (p + rest)[|p|..] == rest;
  }

  /** A prefix in which no occurrence of `p` starts is copied unchanged. */
  lemma {:induction false} ReplaceKeepsPrefix(a: string, rest: string, p: string, r: string)
    requires |p| > 0
    requires forall i: nat :: i < |a| ==> !StartsAt(a + rest, p, i)
    ensures ReplaceAll(a + rest, p, r) == a + ReplaceAll(rest, p, r)
    decreases |a|
  {
    if |a| == 0 {
      assert a + rest == rest;
    } else {
      var s := a + rest;
      assert !StartsAt(s, p, 0);
      NoStartAfterHead(s, p, |a|);
      assert s[1..] == a[1..] + rest;
      ReplaceKeepsPrefix(a[1..], rest, p, r);
      ReplaceMissesHead(s, p, r);
      assert [a[0]] + a[1..] == a;
    }
  }

  /** A prefix that does not contain the first character of `p` is copied
      unchanged: the usual way to show that a fixed text is not rewritten. */
  lemma ReplaceSkipsPrefix(a: string, rest: string, p: string, r: string)
    requires |p| > 0
    requires forall i :: 0 <= i < |a| ==> a[i] != p[0]
    ensures ReplaceAll(a + rest, p, r) == a + ReplaceAll(rest, p, r)
  {
    forall i: nat | i < |a|
      ensures !StartsAt(a + rest, p, i)
    {
      assert (a + rest)[i] == a[i];
    }
    ReplaceKeepsPrefix(a, rest, p, r);
  }

  /** ASCII case folding, as Kotlin's `Char.lowercaseChar()` does on ASCII. */
  function Lower(c: char): (r: char)
    ensures 'A' <= c <= 'Z' ==> 'a' <= r <= 'z'
    ensures !('A' <= c <= 'Z') ==> r == c
  {
    if 'A' <= c <= 'Z' then (c as int - 'A' as int + 'a' as int) as char else c
  }

  /** Kotlin's `a.equals(b, ignoreCase = true)` on ASCII text. */
  predicate EqualsIgnoreCase(a: string, b: string) {
    |a| == |b| && forall i :: 0 <= i < |a| ==> Lower(a[i]) == Lower(b[i])
  }

  /** Kotlin's `Char.isWhitespace()` on the JVM: Java's `isWhitespace` (the
      controls U+0009-U+000D and U+001C-U+001F) or Java's `isSpaceChar` (the
      space, line and paragraph separators of Unicode, the no-break spaces
      among them). */
  predicate IsWhitespace(c: char) {
    ('\t' <= c <= '\r') || ('\U{001C}' <= c <= ' ')
    || c == '\U{00A0}' || c == '\U{1680}' || ('\U{2000}' <= c <= '\U{200A}')
    || c == '\U{2028}' || c == '\U{2029}' || c == '\U{202F}' || c == '\U{205F}' || c == '\U{3000}'
  }

  /** The Unicode spaces are blank too: the ideographic space and the no-break
      space make a text blank, while a letter does not. */
  lemma UnicodeSpacesBlank()
    ensures IsBlank("\U{3000}") && IsBlank("\U{00A0}\U{2007}\U{202F}")
    ensures !IsBlank(" a")
  {
    assert !IsWhitespace(" a"[1]);
  }

  /** Kotlin's `isBlank()`: empty or whitespace only. */
  predicate IsBlank(s: string) {
    forall i :: 0 <= i < |s| ==> IsWhitespace(s[i])
  }

  predicate IsDigit(c: char) {
    '0' <= c <= '9'
  }

  /** `Int.toString()` of a non-negative number: decimal, no leading zero. */
  function NatToString(n: nat): (r: string)
    ensures |r| > 0
    ensures forall i :: 0 <= i < |r| ==> IsDigit(r[i])
    ensures |r| > 1 ==> r[0] != '0'
    decreases n
  {
    if n < 10 then [Digit(n)] else NatToString(n / 10) + [Digit(n % 10)]
  }

  function Digit(d: nat): (c: char)
    requires d < 10
    ensures IsDigit(c)
  {
    ('0' as int + d) as char
  }

  /** Reads a decimal string back; the inverse of `NatToString`. */
  function DecimalValue(s: string): nat
    requires forall i :: 0 <= i < |s| ==> IsDigit(s[i])
  {
    if |s| == 0 then 0
    else
      assert IsDigit(s[|s| - 1]);
      10 * DecimalValue(s[..|s| - 1]) + (s[|s| - 1] as int - '0' as int)
  }

  lemma {:induction false} DecimalRoundTrip(n: nat)
    ensures DecimalValue(NatToString(n)) == n
    decreases n
  {
    if n >= 10 {
      var s := NatToString(n);
      assert s[..|s| - 1] == NatToString(n / 10);
      DecimalRoundTrip(n / 10);
    }
  }

  /** Different numbers print differently. */
  lemma NatToStringInjective(m: nat, n: nat)
    requires NatToString(m) == NatToString(n)
    ensures m == n
  {
    DecimalRoundTrip(m);
    DecimalRoundTrip(n);
  }
}
