/** Python string operations the core relies on, over `seq<char>`. */
module Strings {

  predicate StartsWith(s: string, p: string) {
    |p| <= |s| && s[..|p|] == p
  }

  /** Python's `p in s`. */
  predicate Contains(s: string, p: string)
    decreases |s|
  {
    StartsWith(s, p) || (s != [] && Contains(s[1..], p))
  }

  lemma {:induction false} ContainsNeedsRoom(s: string, p: string)
    requires Contains(s, p)
    ensures |p| <= |s|
    decreases |s|
  {
    if !StartsWith(s, p) {
      ContainsNeedsRoom(s[1..], p);
    }
  }

  /** `r + s[0] + r + s[1] + ... + r`: what Python's `s.replace("", r)` returns. */
  function Interleave(s: string, r: string): string
    decreases |s|
  {
    if s == [] then r else r + [s[0]] + Interleave(s[1..], r)
  }

  /** Python's `s.replace(p, r)`: non-overlapping occurrences, left to right. */
  function ReplaceAll(s: string, p: string, r: string): string
    decreases |s|
  {
    if p == [] then Interleave(s, r)
    else if |s| < |p| then s
    else if s[..|p|] == p then r + ReplaceAll(s[|p|..], p, r)
    else [s[0]] + ReplaceAll(s[1..], p, r)
  }

  /** Replacing a pattern that does not occur changes nothing. */
  lemma {:induction false} ReplaceAbsent(s: string, p: string, r: string)
    requires p != [] && !Contains(s, p)
    ensures ReplaceAll(s, p, r) == s
    decreases |s|
  {
    if |s| >= |p| {
      ReplaceAbsent(s[1..], p, r);
    }
  }

  /** Replacing a pattern by itself changes nothing. */
  lemma {:induction false} ReplaceBySelf(s: string, p: string)
    requires p != []
    ensures ReplaceAll(s, p, p) == s
    decreases |s|
  {
    if |s| >= |p| {
      if s[..|p|] == p {
        ReplaceBySelf(s[|p|..], p);
        assert s == s[..|p|] + s[|p|..];
      } else {
        ReplaceBySelf(s[1..], p);
        assert s == [s[0]] + s[1..];
      }
    }
  }

  ghost predicate Foreign(r: string, p: string) {
    forall i :: 0 <= i < |r| ==> r[i] !in p
  }

  /** Scanning with no match before position j copies the first j characters. */
  lemma {:induction false} ReplaceCopiesPrefix(s: string, p: string, r: string, j: nat)
    requires p != [] && j <= |s|
    requires forall i :: 0 <= i < j ==> !StartsWith(s[i..], p)
    ensures ReplaceAll(s, p, r) == s[..j] + ReplaceAll(s[j..], p, r)
    decreases j
  {
    if j > 0 {
      assert !StartsWith(s, p) by { assert s[0..] == s; }
      forall i | 0 <= i < j - 1 ensures !StartsWith(s[1..][i..], p) {
        assert s[1..][i..] == s[i + 1..];
      }
      ReplaceCopiesPrefix(s[1..], p, r, j - 1);
      assert s[1..][j - 1..] == s[j..];
      if |s| < |p| {
        ReplaceAbsentShort(s[j..], p, r);
        ReplaceAbsentShort(s[1..][j - 1..], p, r);
        assert s == s[..j] + s[j..];
      } else {
        assert s[..j] == [s[0]] + s[1..][..j - 1];
      }
    }
  }

  lemma ReplaceAbsentShort(s: string, p: string, r: string)
    requires p != [] && |s| < |p|
    ensures ReplaceAll(s, p, r) == s
  {
  }

  /** A foreign prefix cannot start an occurrence. */
  lemma {:induction false} ForeignPrefixNoMatch(r: string, t: string, p: string)
    requires p != [] && Foreign(r, p) && !Contains(t, p)
    ensures !Contains(r + t, p)
    decreases |r|
  {
    if r == [] {
      assert r + t == t;
    } else {
      assert (r + t)[0] == r[0];
      assert r[0] !in p && p[0] in p;
      assert (r + t)[1..] == r[1..] + t;
      ForeignPrefixNoMatch(r[1..], t, p);
    }
  }

  /** After replacing a head that does not start a match, the result does not
      start with p either, provided the replacement is non-empty and foreign. */
  lemma {:induction false} NoStartAfterHead(c: char, t: string, p: string, r: string, j: nat)
    requires p != [] && r != [] && Foreign(r, p)
    requires |p| - 1 <= |t| && j <= |p| - 1
    requires !StartsWith([c] + t, p)
    requires forall i :: 0 <= i < j ==> !StartsWith(t[i..], p)
    ensures !StartsWith([c] + ReplaceAll(t, p, r), p)
    decreases |p| - j
  {
    ReplaceCopiesPrefix(t, p, r, j);
    var rt := ReplaceAll(t, p, r);
    if j == |p| - 1 {
      assert ([c] + rt)[..|p|] == [c] + t[..j];
      assert ([c] + t)[..|p|] == [c] + t[..j];
    } else if StartsWith(t[j..], p) {
      assert ReplaceAll(t[j..], p, r) == r + ReplaceAll(t[j..][|p|..], p, r);
      assert ([c] + rt)[j + 1] == r[0];
      assert r[0] !in p && p[j + 1] in p;
    } else {
      NoStartAfterHead(c, t, p, r, j + 1);
    }
  }

  /** `s.replace(p, r)` leaves no occurrence of p when r is non-empty and
      shares no character with p. */
  lemma {:induction false} ReplaceLeavesNoOccurrence(s: string, p: string, r: string)
    requires p != [] && r != [] && Foreign(r, p)
    ensures !Contains(ReplaceAll(s, p, r), p)
    decreases |s|
  {
    var out := ReplaceAll(s, p, r);
    if |s| < |p| {
      if Contains(out, p) { ContainsNeedsRoom(out, p); }
    } else if s[..|p|] == p {
      ReplaceLeavesNoOccurrence(s[|p|..], p, r);
      ForeignPrefixNoMatch(r, ReplaceAll(s[|p|..], p, r), p);
    } else {
      var t := s[1..];
      ReplaceLeavesNoOccurrence(t, p, r);
      assert s == [s[0]] + t;
      NoStartAfterHead(s[0], t, p, r, 0);
      assert ([s[0]] + ReplaceAll(t, p, r))[1..] == ReplaceAll(t, p, r);
    }
  }

  /** An occurrence survives appending text on the right. */
  lemma {:induction false} ContainsAppend(x: string, c: string, y: string)
    requires Contains(x, y)
    ensures Contains(x + c, y)
    decreases |x|
  {
    if StartsWith(x, y) {
      assert (x + c)[..|y|] == x[..|y|];
    } else {
      ContainsAppend(x[1..], c, y);
      assert (x + c)[1..] == x[1..] + c;
    }
  }

  /** An occurrence survives prepending text on the left. */
  lemma {:induction false} ContainsPrepend(a: string, x: string, y: string)
    requires Contains(x, y)
    ensures Contains(a + x, y)
    decreases |a|
  {
    if a != [] {
      ContainsPrepend(a[1..], x, y);
      assert (a + x)[1..] == a[1..] + x;
    } else {
      assert a + x == x;
    }
  }

  /** A piece set between two others is contained in the whole. */
  lemma Embedded(before: string, n: string, after: string)
    ensures Contains(before + n + after, n)
  {
    assert StartsWith(n, n);
    ContainsAppend(n, after, n);
    ContainsPrepend(before, n + after, n);
    assert before + (n + after) == before + n + after;
  }

  /** No occurrence of p can start where its first two characters never
      appear side by side. */
  lemma {:induction false} NoPairNoContains(s: string, p: string)
    requires |p| >= 2
    requires forall k :: 0 <= k < |s| - 1 ==> !(s[k] == p[0] && s[k + 1] == p[1])
    ensures !Contains(s, p)
    decreases |s|
  {
    if s != [] {
      assert !StartsWith(s, p) by {
        if |p| <= |s| {
          assert s[..|p|][0] == s[0] && s[..|p|][1] == s[1];
        }
      }
      forall k | 0 <= k < |s[1..]| - 1 ensures !(s[1..][k] == p[0] && s[1..][k + 1] == p[1]) {
        assert s[1..][k] == s[k + 1] && s[1..][k + 1] == s[k + 2];
      }
      NoPairNoContains(s[1..], p);
    }
  }

  /** Python's `s.split(c)` for a one-character separator. */
  function SplitOn(s: string, c: char): (parts: seq<string>)
    ensures |parts| >= 1
    decreases |s|
  {
    if s == [] then [""]
    else
      var rest := SplitOn(s[1..], c);
      if s[0] == c then [""] + rest
      else [[s[0]] + rest[0]] + rest[1..]
  }

  function JoinWith(parts: seq<string>, c: char): string
    requires |parts| >= 1
    decreases |parts|
  {
    if |parts| == 1 then parts[0] else parts[0] + [c] + JoinWith(parts[1..], c)
  }

  /** Joining the pieces of a split with the separator gives the string back. */
  lemma {:induction false} SplitJoinRoundTrip(s: string, c: char)
    ensures JoinWith(SplitOn(s, c), c) == s
    decreases |s|
  {
    if s != [] {
      var rest := SplitOn(s[1..], c);
      SplitJoinRoundTrip(s[1..], c);
      if s[0] == c {
        assert SplitOn(s, c) == [""] + rest;
        assert (([""] + rest)[1..]) == rest;
        assert s == [c] + s[1..];
      } else {
        var parts := [[s[0]] + rest[0]] + rest[1..];
        assert SplitOn(s, c) == parts;
        if |rest| == 1 {
          assert JoinWith(rest, c) == rest[0];
        } else {
          assert JoinWith(rest, c) == rest[0] + [c] + JoinWith(rest[1..], c);
          assert parts[1..] == rest[1..];
        }
        assert s == [s[0]] + s[1..];
      }
    }
  }

  /** No piece of a split contains the separator. */
  lemma {:induction false} SplitPiecesFree(s: string, c: char)
    ensures forall k :: 0 <= k < |SplitOn(s, c)| ==> c !in SplitOn(s, c)[k]
    decreases |s|
  {
    if s != [] {
      SplitPiecesFree(s[1..], c);
    }
  }

  /** The index of the first `c` in s, or |s| when there is none. */
  function IndexOf(s: string, c: char): (i: nat)
    ensures i <= |s|
    ensures i < |s| ==> s[i] == c
    ensures forall k :: 0 <= k < i ==> s[k] != c
    decreases |s|
  {
    if s == [] then 0 else if s[0] == c then 0 else 1 + IndexOf(s[1..], c)
  }

  /** Python's `line.split(c, 1)` on a line that contains c. */
  function SplitFirst(line: string, c: char): (kv: (string, string))
    requires c in line
    ensures kv.0 + [c] + kv.1 == line
    ensures c !in kv.0
  {
    var i := IndexOf(line, c);
    assert line == line[..i] + [line[i]] + line[i + 1..];
    (line[..i], line[i + 1..])
  }

  /** The characters for which Python's `str.isspace()` holds. */
  predicate IsSpace(ch: char) {
    ch == ' ' || ('\t' <= ch <= '\r') || ('\U{1c}' <= ch <= '\U{1f}')
    || ch == '\U{85}' || ch == '\U{a0}' || ch == '\U{1680}'
    || ('\U{2000}' <= ch <= '\U{200a}') || ch == '\U{2028}' || ch == '\U{2029}'
    || ch == '\U{202f}' || ch == '\U{205f}' || ch == '\U{3000}'
  }

  ghost predicate AllSpace(s: string) {
    forall i :: 0 <= i < |s| ==> IsSpace(s[i])
  }

  function TrimStart(s: string): string
    decreases |s|
  {
    if s != [] && IsSpace(s[0]) then TrimStart(s[1..]) else s
  }

  function TrimEnd(s: string): string
    decreases |s|
  {
    if s != [] && IsSpace(s[|s| - 1]) then TrimEnd(s[..|s| - 1]) else s
  }

  /** Python's `s.strip()`. */
  function Strip(s: string): string {
    TrimEnd(TrimStart(s))
  }

  /** The number of whitespace characters TrimStart removes. */
  function LeadingSpaces(s: string): (n: nat)
    ensures n <= |s| && TrimStart(s) == s[n..]
    ensures forall i :: 0 <= i < n ==> IsSpace(s[i])
    ensures n == |s| || !IsSpace(s[n])
    decreases |s|
  {
    if s != [] && IsSpace(s[0]) then
      var m := LeadingSpaces(s[1..]);
      assert s[1..][m..] == s[1 + m..];
      assert forall i :: 1 <= i < 1 + m ==> s[i] == s[1..][i - 1];
      1 + m
    else 0
  }

  /** Where the characters TrimEnd keeps end. */
  function KeptBeforeTrailing(s: string): (n: nat)
    ensures n <= |s| && TrimEnd(s) == s[..n]
    ensures forall i :: n <= i < |s| ==> IsSpace(s[i])
    ensures n == 0 || !IsSpace(s[n - 1])
    decreases |s|
  {
    if s != [] && IsSpace(s[|s| - 1]) then
      var u := s[..|s| - 1];
      var m := KeptBeforeTrailing(u);
      assert u[..m] == s[..m];
      assert forall i :: m <= i < |u| ==> s[i] == u[i];
      m
    else |s|
  }

  lemma TrimStartSplits(s: string)
    ensures exists n :: 0 <= n <= |s| && AllSpace(s[..n]) && TrimStart(s) == s[n..]
    ensures TrimStart(s) == [] || !IsSpace(TrimStart(s)[0])
  {
    var n := LeadingSpaces(s);
    assert AllSpace(s[..n]);
  }

  lemma TrimEndSplits(s: string)
    ensures exists n :: 0 <= n <= |s| && AllSpace(s[n..]) && TrimEnd(s) == s[..n]
    ensures TrimEnd(s) == [] || !IsSpace(TrimEnd(s)[|TrimEnd(s)| - 1])
  {
    var n := KeptBeforeTrailing(s);
    assert AllSpace(s[n..]);
  }

  /** `s.strip()` removes whitespace only, and only at the two ends. */
  lemma StripSplits(s: string)
    ensures exists a, b :: 0 <= a <= b <= |s| && AllSpace(s[..a]) && AllSpace(s[b..])
                           && Strip(s) == s[a..b]
  {
    var a := LeadingSpaces(s);
    var n := KeptBeforeTrailing(s[a..]);
    var b := a + n;
    assert Strip(s) == TrimEnd(s[a..]) == s[a..][..n] == s[a..b];
    assert forall i :: b <= i < |s| ==> s[i] == s[a..][i - a];
    SpacesOutside(s, a, b);
    assert 0 <= a <= b <= |s| && AllSpace(s[..a]) && AllSpace(s[b..]) && Strip(s) == s[a..b];
  }

  lemma SpacesOutside(s: string, a: nat, b: nat)
    requires a <= b <= |s|
    requires forall i :: 0 <= i < a ==> IsSpace(s[i])
    requires forall i :: b <= i < |s| ==> IsSpace(s[i])
    ensures AllSpace(s[..a]) && AllSpace(s[b..])
  {
    assert forall i :: 0 <= i < |s[b..]| ==> s[b..][i] == s[b + i];
  }

  /** `s.strip()` leaves no whitespace at either end. */
  lemma StripTrimmed(s: string)
    ensures Strip(s) == [] || (!IsSpace(Strip(s)[0]) && !IsSpace(Strip(s)[|Strip(s)| - 1]))
  {
    var a := LeadingSpaces(s);
    var t := s[a..];
    var n := KeptBeforeTrailing(t);
    if Strip(s) != [] {
      assert Strip(s) == t[..n];
      assert Strip(s)[0] == t[0];
    }
  }

  /** ASCII lower-casing (Python's `str.lower()` on the letters A-Z). */
  function LowerChar(ch: char): char {
    if 'A' <= ch <= 'Z' then (ch as int + 32) as char else ch
  }

  function Lower(s: string): (r: string)
    ensures |r| == |s|
    ensures forall i :: 0 <= i < |s| ==> r[i] == LowerChar(s[i])
  {
    seq(|s|, i requires 0 <= i < |s| => LowerChar(s[i]))
  }

  // ---------------------------------------------------------------- decimals

  function DigitChar(d: int): char
    requires 0 <= d < 10
  {
    ('0' as int + d) as char
  }

  /** The decimal digits of n, as `str(n)` writes them. */
  function Digits(n: nat): (r: string)
    ensures |r| >= 1
    decreases n
  {
    if n < 10 then [DigitChar(n)] else Digits(n / 10) + [DigitChar(n % 10)]
  }

  /** `str(i)` for an int: a minus sign before the digits of a negative. */
  function Decimal(i: int): string {
    if i < 0 then "-" + Digits(-i) else Digits(i)
  }

  /** Reading decimal digits back, most significant first. */
  function DigitsValue(s: string): int
    decreases |s|
  {
    if s == [] then 0 else DigitsValue(s[..|s| - 1]) * 10 + (s[|s| - 1] as int - '0' as int)
  }

  /** The digits written for n read back as n. */
  lemma {:induction false} DigitsRoundTrip(n: nat)
    ensures DigitsValue(Digits(n)) == n
    decreases n
  {
    if n >= 10 {
      DigitsRoundTrip(n / 10);
      var s := Digits(n);
      assert s[..|s| - 1] == Digits(n / 10);
    }
  }
}
