/**
 String trimming and case as the two runtimes use them. The blanks are Unicode's; Python's `strip` and `split` also
 take the four ASCII separators that Rust's `trim` leaves. Case is folded for ASCII letters.
 */
module Text {

  /** Unicode's White_Space property, which Rust trims. */
  predicate IsWhiteSpace(c: char) {
    || '\U{0009}' <= c <= '\U{000D}' || c == ' ' || c == '\U{0085}' || c == '\U{00A0}' || c == '\U{1680}'
    || '\U{2000}' <= c <= '\U{200A}' || c == '\U{2028}' || c == '\U{2029}' || c == '\U{202F}' || c == '\U{205F}'
    || c == '\U{3000}'
  }

  /** Python's `str.isspace` for one character. */
  predicate IsSpace(c: char) { IsWhiteSpace(c) || '\U{001C}' <= c <= '\U{001F}' }

  /** The blanks of both runtimes, code point by code point. */
  lemma BlanksExactly(c: char)
    ensures IsWhiteSpace(c) <==> c as int in {
      0x09, 0x0A, 0x0B, 0x0C, 0x0D, 0x20, 0x85, 0xA0, 0x1680, 0x2000, 0x2001, 0x2002, 0x2003, 0x2004, 0x2005, 0x2006,
      0x2007, 0x2008, 0x2009, 0x200A, 0x2028, 0x2029, 0x202F, 0x205F, 0x3000}
    ensures IsSpace(c) <==> IsWhiteSpace(c) || c as int in {0x1C, 0x1D, 0x1E, 0x1F}
  {
  }

  function StripLeft(space: char -> bool, s: string): string {
    if s != "" && space(s[0]) then StripLeft(space, s[1..]) else s
  }

  function StripRight(space: char -> bool, s: string): string {
    if s != "" && space(s[|s| - 1]) then StripRight(space, s[..|s| - 1]) else s
  }

  function StripBy(space: char -> bool, s: string): string { StripRight(space, StripLeft(space, s)) }

  /** Python's `strip`. */
  function Strip(s: string): string { StripBy(IsSpace, s) }

  /** Rust's `trim`. */
  function Trim(s: string): string { StripBy(IsWhiteSpace, s) }

  predicate IsBlank(s: string) { Strip(s) == "" }

  lemma StripKeeps(s: string)
    requires s != "" && !IsSpace(s[0]) && !IsSpace(s[|s| - 1])
    ensures Strip(s) == s && Trim(s) == s
  {
  }

  function LowerChar(c: char): char {
    if 'A' <= c <= 'Z' then (c as int + 32) as char else c
  }

  function Lower(s: string): (r: string)
    ensures |r| == |s|
  {
    seq(|s|, i requires 0 <= i < |s| => LowerChar(s[i]))
  }

  predicate EqIgnoreCase(a: string, b: string) { Lower(a) == Lower(b) }

  /** Bytes of `s` in UTF-8, as Rust's `len` counts them. */
  function Utf8Length(s: string): nat {
    if s == "" then 0
    else
      var c := s[0];
      var bytes := if c < '\U{0080}' then 1 else if c < '\U{0800}' then 2 else if c < '\U{10000}' then 3 else 4;
      bytes + Utf8Length(s[1..])
  }

  lemma {:induction false} AsciiLength(s: string)
    requires forall i | 0 <= i < |s| :: s[i] < '\U{0080}'
    ensures Utf8Length(s) == |s|
    decreases |s|
  {
    if s != "" { AsciiLength(s[1..]); }
  }

  /** Equal but for the case of ASCII letters, character by character. */
  lemma EqIgnoreCaseExactly(a: string, b: string)
    ensures EqIgnoreCase(a, b) <==>
      && |a| == |b|
      && forall i | 0 <= i < |a| ::
           || a[i] == b[i]
           || ('A' <= a[i] <= 'Z' && b[i] as int == a[i] as int + 32)
           || ('A' <= b[i] <= 'Z' && a[i] as int == b[i] as int + 32)
  {
    if EqIgnoreCase(a, b) {
      forall i | 0 <= i < |a|
        ensures || a[i] == b[i]
                || ('A' <= a[i] <= 'Z' && b[i] as int == a[i] as int + 32)
                || ('A' <= b[i] <= 'Z' && a[i] as int == b[i] as int + 32)
      {
        assert Lower(a)[i] == Lower(b)[i];
      }
    }
  }

  lemma {:induction false} StripLeftExactly(space: char -> bool, s: string) returns (n: nat)
    ensures n <= |s| && StripLeft(space, s) == s[n..]
    ensures (forall i | 0 <= i < n :: space(s[i])) && (n < |s| ==> !space(s[n]))
    decreases |s|
  {
    n := 0;
    if s != "" && space(s[0]) {
      var m := StripLeftExactly(space, s[1..]);
      n := m + 1;
      assert s[1..][m..] == s[n..];
      forall i | 0 <= i < n ensures space(s[i]) {
        assert i > 0 ==> s[i] == s[1..][i - 1];
      }
    }
  }

  lemma {:induction false} StripRightExactly(space: char -> bool, s: string) returns (n: nat)
    ensures n <= |s| && StripRight(space, s) == s[..n]
    ensures (forall i | n <= i < |s| :: space(s[i])) && (n > 0 ==> !space(s[n - 1]))
    decreases |s|
  {
    n := |s|;
    if s != "" && space(s[|s| - 1]) {
      var t := s[..|s| - 1];
      n := StripRightExactly(space, t);
      assert t[..n] == s[..n];
    }
  }

  /** Trimming takes away blanks at both ends, all of them, and nothing else. */
  lemma StripExactly(space: char -> bool, s: string) returns (i: nat, j: nat)
    ensures i <= j <= |s| && StripBy(space, s) == s[i..j]
    ensures (forall k | 0 <= k < i || j <= k < |s| :: space(s[k])) && (i < j ==> !space(s[i]) && !space(s[j - 1]))
  {
    i := StripLeftExactly(space, s);
    var left := s[i..];
    var n := StripRightExactly(space, left);
    j := i + n;
    forall k | j <= k < |s| ensures space(s[k]) {
      assert s[k] == left[k - i];
    }
  }

  /** Python's strip and Rust's trim take away their own blanks at both ends, all of them, and nothing else. */
  lemma StripAndTrimExactly(s: string) returns (i: nat, j: nat, k: nat, l: nat)
    ensures i <= j <= |s| && Strip(s) == s[i..j]
    ensures (forall n | 0 <= n < i || j <= n < |s| :: IsSpace(s[n])) && (i < j ==> !IsSpace(s[i]) && !IsSpace(s[j - 1]))
    ensures k <= l <= |s| && Trim(s) == s[k..l]
    ensures forall n | 0 <= n < k || l <= n < |s| :: IsWhiteSpace(s[n])
    ensures k < l ==> !IsWhiteSpace(s[k]) && !IsWhiteSpace(s[l - 1])
  {
    i, j := StripExactly(IsSpace, s);
    k, l := StripExactly(IsWhiteSpace, s);
  }

  /** The length in UTF-8 adds up over the characters, of one to four bytes by the ranges of section 3 of RFC 3629. */
  lemma {:induction false} Utf8LengthExactly(a: string, b: string, c: char)
    ensures Utf8Length(a + b) == Utf8Length(a) + Utf8Length(b)
    ensures Utf8Length([c]) == 1 <==> c as int <= 0x7F
    ensures Utf8Length([c]) == 2 <==> 0x80 <= c as int <= 0x7FF
    ensures Utf8Length([c]) == 3 <==> 0x800 <= c as int <= 0xFFFF
    ensures Utf8Length([c]) == 4 <==> 0x1_0000 <= c as int
    decreases |a|
  {
    assert [c][1..] == "";
    if a == "" {
      assert a + b == b;
    } else {
      assert (a + b)[1..] == a[1..] + b;
      Utf8LengthExactly(a[1..], b, c);
    }
  }
}
