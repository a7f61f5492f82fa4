/**
 * The part of Go's `strings`, `strconv`, `unicode` and `fmt` packages that the
 * generator relies on. Strings are `seq<char>`; Go's byte-wise operations agree
 * with these on ASCII input.
 */
module Strings {

  // ---------------------------------------------------------------------------
  // Prefixes and suffixes (strings.HasPrefix, HasSuffix, TrimPrefix, TrimSuffix)
  // ---------------------------------------------------------------------------

  predicate HasPrefix(s: string, p: string) {
    |p| <= |s| && s[..|p|] == p
  }

  predicate HasSuffix(s: string, p: string) {
    |p| <= |s| && s[|s| - |p|..] == p
  }

  function TrimPrefix(s: string, p: string): (r: string)
    ensures HasPrefix(s, p) ==> s == p + r
    ensures !HasPrefix(s, p) ==> r == s
  {
    if HasPrefix(s, p) then s[|p|..] else s
  }

  function TrimSuffix(s: string, p: string): (r: string)
    ensures HasSuffix(s, p) ==> s == r + p
    ensures !HasSuffix(s, p) ==> r == s
  {
    if HasSuffix(s, p) then s[..|s| - |p|] else s
  }

  // ---------------------------------------------------------------------------
  // White space (strings.TrimSpace, which trims the characters unicode.IsSpace
  // accepts)
  // ---------------------------------------------------------------------------

  /**
   * unicode.IsSpace: tab, newline, vertical tab, form feed, carriage return,
   * space, U+0085 and U+00A0, and the other characters with the Unicode
   * White_Space property.
   */
  predicate IsSpace(c: char) {
    c == ' ' || ('\t' <= c <= '\r') || c == '\U{85}' || c == '\U{A0}'
    || c == '\U{1680}' || ('\U{2000}' <= c <= '\U{200A}') || c == '\U{2028}'
    || c == '\U{2029}' || c == '\U{202F}' || c == '\U{205F}' || c == '\U{3000}'
  }

  /** There is nothing to trim at either end of `s`. */
  predicate Trimmed(s: string) {
    s == "" || (!IsSpace(s[0]) && !IsSpace(s[|s| - 1]))
  }

  /** The first position at or after `k` that holds no white space, or `|s|`. */
  function SpaceEnd(s: string, k: nat): (r: nat)
    requires k <= |s|
    ensures k <= r <= |s|
    ensures forall j :: k <= j < r ==> IsSpace(s[j])
    ensures r < |s| ==> !IsSpace(s[r])
    decreases |s| - k
  {
    if k < |s| && IsSpace(s[k]) then SpaceEnd(s, k + 1) else k
  }

  /** The position after the last character before `k` that is no white space, or 0. */
  function SpaceStart(s: string, k: nat): (r: nat)
    requires k <= |s|
    ensures r <= k
    ensures forall j :: r <= j < k ==> IsSpace(s[j])
    ensures r > 0 ==> !IsSpace(s[r - 1])
  {
    if k > 0 && IsSpace(s[k - 1]) then SpaceStart(s, k - 1) else k
  }

  function TrimLeftSpace(s: string): (r: string)
    ensures |r| <= |s| && r == s[|s| - |r|..]
    ensures r == "" || !IsSpace(r[0])
    ensures r != "" && Trimmed(s) ==> !IsSpace(r[|r| - 1])
  {
    s[SpaceEnd(s, 0)..]
  }

  function TrimRightSpace(s: string): (r: string)
    ensures |r| <= |s| && r == s[..|r|]
    ensures r == "" || !IsSpace(r[|r| - 1])
  {
    s[..SpaceStart(s, |s|)]
  }

  /** `s` with all leading and trailing white space, and nothing else, cut off. */
  function TrimSpace(s: string): (r: string)
    ensures |r| <= |s|
    ensures Trimmed(r)
    ensures exists i, j ::
              && 0 <= i <= j <= |s| && r == s[i..j]
              && (forall k :: 0 <= k < i ==> IsSpace(s[k]))
              && (forall k :: j <= k < |s| ==> IsSpace(s[k]))
  {
    var i := SpaceEnd(s, 0);
    var l := TrimLeftSpace(s);
    var r := TrimRightSpace(l);
    assert r != "" ==> r[0] == l[0];
    var j := i + SpaceStart(s[i..], |s| - i);
    assert r == s[i..j];
    r
  }

  /** Trimming text that has nothing to trim leaves it as it is. */
  lemma TrimSpaceTrimmed(s: string)
    requires Trimmed(s)
    ensures TrimSpace(s) == s
  {
  }

  /** Trailing blanks are what TrimSpace removes. */
  lemma {:induction false} TrimSpaceBlank(s: string)
    requires Trimmed(s) && s != ""
    ensures TrimSpace(s + " ") == s
  {
    var t := s + " ";
    assert t[0] == s[0];
    assert TrimLeftSpace(t) == t;
    assert t[..|t| - 1] == s;
    assert TrimRightSpace(t) == TrimRightSpace(s) == s;
  }

  // ---------------------------------------------------------------------------
  // Searching (strings.Index, strings.LastIndex with a one-character argument,
  // strings.ContainsAny)
  // ---------------------------------------------------------------------------

  /** `sub` occurs in `s` at position `j`. */
  predicate OccursAt(s: string, sub: string, j: int) {
    0 <= j && j + |sub| <= |s| && s[j..j + |sub|] == sub
  }

  /** The first position of `sub` in `s`, or -1. */
  function Index(s: string, sub: string): (r: int)
    ensures r == -1 || OccursAt(s, sub, r)
    ensures forall j :: 0 <= j && (r == -1 || j < r) ==> !OccursAt(s, sub, j)
  {
    IndexFrom(s, sub, 0)
  }

  /** The first position at or after `k` where `sub` occurs in `s`, or -1. */
  function IndexFrom(s: string, sub: string, k: nat): (r: int)
    ensures r == -1 || (k <= r && OccursAt(s, sub, r))
    ensures forall j :: k <= j && (r == -1 || j < r) ==> !OccursAt(s, sub, j)
    decreases |s| - k
  {
    if k + |sub| > |s| then -1
    else if s[k..k + |sub|] == sub then k
    else IndexFrom(s, sub, k + 1)
  }

  /** The last position of `c` in `s`, or -1. */
  function LastIndexOf(s: string, c: char): (r: int)
    ensures -1 <= r < |s|
    ensures r >= 0 ==> s[r] == c
    ensures forall j :: r < j < |s| ==> s[j] != c
  {
    if |s| == 0 then -1
    else if s[|s| - 1] == c then |s| - 1
    else LastIndexOf(s[..|s| - 1], c)
  }

  predicate ContainsAny(s: string, chars: string) {
    exists i :: 0 <= i < |s| && s[i] in chars
  }

  // ---------------------------------------------------------------------------
  // strings.Split with a non-empty separator, and its inverse strings.Join
  // ---------------------------------------------------------------------------

  function Split(s: string, sep: string): (r: seq<string>)
    requires sep != ""
    ensures |r| >= 1
    ensures forall k :: 0 <= k < |r| ==> |r[k]| <= |s|
  {
    SplitFrom(s, sep, 0)
  }

  /** The segments of `s[k..]`, found by searching `s` from `k` on. */
  function SplitFrom(s: string, sep: string, k: nat): (r: seq<string>)
    requires sep != "" && k <= |s|
    ensures |r| >= 1
    ensures forall n :: 0 <= n < |r| ==> |r[n]| <= |s| - k
    decreases |s| - k
  {
    var i := IndexFrom(s, sep, k);
    if i < 0 then [s[k..]] else [s[k..i]] + SplitFrom(s, sep, i + |sep|)
  }

  function Join(parts: seq<string>, sep: string): string {
    if |parts| == 0 then ""
    else if |parts| == 1 then parts[0]
    else parts[0] + sep + Join(parts[1..], sep)
  }

  /** At the first separator from `k` on, splitting from `k` cuts off the text up to it. */
  lemma SplitFromAt(s: string, sep: string, k: nat, i: nat)
    requires sep != "" && k <= i && OccursAt(s, sep, i)
    requires forall j :: k <= j < i ==> !OccursAt(s, sep, j)
    ensures SplitFrom(s, sep, k) == [s[k..i]] + SplitFrom(s, sep, i + |sep|)
  {
    assert IndexFrom(s, sep, k) == i;
  }

  /** With no separator from `k` on, splitting from `k` gives the rest whole. */
  lemma SplitFromNone(s: string, sep: string, k: nat)
    requires sep != "" && k <= |s|
    requires forall j :: k <= j ==> !OccursAt(s, sep, j)
    ensures SplitFrom(s, sep, k) == [s[k..]]
  {
    assert IndexFrom(s, sep, k) == -1;
  }

  /** Joining the segments of `s[k..]` gives it back. */
  lemma {:induction false} JoinSplitFrom(s: string, sep: string, k: nat)
    requires sep != "" && k <= |s|
    ensures Join(SplitFrom(s, sep, k), sep) == s[k..]
    decreases |s| - k
  {
    var i := IndexFrom(s, sep, k);
    if i >= 0 {
      var j := i + |sep|;
      JoinSplitFrom(s, sep, j);
      var tail := SplitFrom(s, sep, j);
      assert SplitFrom(s, sep, k) == [s[k..i]] + tail;
      JoinCons(s[k..i], tail, sep);
      assert s[i..j] == sep;
      SliceThree(s, k, i, j);
    }
  }

  lemma JoinCons(head: string, tail: seq<string>, sep: string)
    requires |tail| >= 1
    ensures Join([head] + tail, sep) == head + sep + Join(tail, sep)
  {
    assert ([head] + tail)[1..] == tail;
  }

  lemma SliceThree(s: string, k: nat, i: nat, j: nat)
    requires k <= i <= j <= |s|
    ensures s[k..] == s[k..i] + s[i..j] + s[j..]
  {
  }

  /** Split loses nothing: joining the segments gives the text back. */
  lemma JoinSplit(s: string, sep: string)
    requires sep != ""
    ensures Join(Split(s, sep), sep) == s
  {
    JoinSplitFrom(s, sep, 0);
    assert s[0..] == s;
  }

  /** No segment of the split of `s[k..]` contains the separator. */
  lemma {:induction false} SplitFromSegmentsFree(s: string, sep: string, k: nat)
    requires sep != "" && k <= |s|
    ensures forall n :: 0 <= n < |SplitFrom(s, sep, k)| ==> Index(SplitFrom(s, sep, k)[n], sep) == -1
    decreases |s| - k
  {
    var i := IndexFrom(s, sep, k);
    var r := SplitFrom(s, sep, k);
    var head := if i < 0 then s[k..] else s[k..i];
    forall j | 0 <= j && j + |sep| <= |head|
      ensures !OccursAt(head, sep, j)
    {
      assert head[j..j + |sep|] == s[k + j..k + j + |sep|];
      assert !OccursAt(s, sep, k + j);
    }
    assert Index(head, sep) == -1;
    if i >= 0 {
      SplitFromSegmentsFree(s, sep, i + |sep|);
      assert r == [head] + SplitFrom(s, sep, i + |sep|);
    }
  }

  /** No segment of Split contains the separator. */
  lemma SplitSegmentsFree(s: string, sep: string)
    requires sep != ""
    ensures forall k :: 0 <= k < |Split(s, sep)| ==> Index(Split(s, sep)[k], sep) == -1
  {
    SplitFromSegmentsFree(s, sep, 0);
  }

  // ---------------------------------------------------------------------------
  // Character classes (unicode, below U+0100) and case mapping (unicode,
  // restricted to ASCII)
  // ---------------------------------------------------------------------------

  /**
   * unicode.IsLetter of a code point below U+0100: the ASCII letters, U+00AA,
   * U+00B5, U+00BA, and U+00C0 to U+00FF except U+00D7 and U+00F7.
   */
  predicate IsLetter(c: char) {
    ('a' <= c <= 'z') || ('A' <= c <= 'Z')
    || c == '\U{AA}' || c == '\U{B5}' || c == '\U{BA}'
    || ('\U{C0}' <= c <= '\U{FF}' && c != '\U{D7}' && c != '\U{F7}')
  }

  predicate IsDigit(c: char) {
    '0' <= c <= '9'
  }

  function ToUpper(c: char): (r: char)
    ensures 'a' <= c <= 'z' ==> 'A' <= r <= 'Z' && r as int == c as int - 32
    ensures !('a' <= c <= 'z') ==> r == c
  {
    if 'a' <= c <= 'z' then (c as int - 32) as char else c
  }

  function ToLower(c: char): (r: char)
    ensures 'A' <= c <= 'Z' ==> 'a' <= r <= 'z' && r as int == c as int + 32
    ensures !('A' <= c <= 'Z') ==> r == c
  {
    if 'A' <= c <= 'Z' then (c as int + 32) as char else c
  }

  /** strings.Replace(s, from, to, -1) for one-character arguments. */
  function ReplaceChar(s: string, from: char, to: char): (r: string)
    ensures |r| == |s|
    ensures forall i :: 0 <= i < |s| ==> r[i] == if s[i] == from then to else s[i]
  {
    seq(|s|, i requires 0 <= i < |s| => if s[i] == from then to else s[i])
  }

  // ---------------------------------------------------------------------------
  // Decimal formatting (fmt's %d) and its inverse
  // ---------------------------------------------------------------------------

  function DigitChar(d: nat): (c: char)
    requires d < 10
    ensures IsDigit(c)
  {
    ('0' as int + d) as char
  }

  function DigitValue(c: char): nat
    requires IsDigit(c)
  {
    c as int - '0' as int
  }

  predicate AllDigits(s: string) {
    forall i :: 0 <= i < |s| ==> IsDigit(s[i])
  }

  function NatToString(n: nat): (r: string)
    ensures r != "" && AllDigits(r)
  {
    if n < 10 then [DigitChar(n)] else NatToString(n / 10) + [DigitChar(n % 10)]
  }

  /** %d of an int: a minus sign, then the digits of the magnitude. */
  function IntToString(n: int): (r: string)
    ensures r != ""
    ensures forall i :: 0 <= i < |r| ==> r[i] == '-' || IsDigit(r[i])
  {
    if n < 0 then "-" + NatToString(-n) else NatToString(n)
  }

  function ParseDigits(s: string): nat
    requires AllDigits(s)
  {
    if s == "" then 0 else ParseDigits(s[..|s| - 1]) * 10 + DigitValue(s[|s| - 1])
  }

  function ParseInt(s: string): int
    requires s != "" && (s[0] == '-' || IsDigit(s[0])) && AllDigits(s[1..])
  {
    if s[0] == '-' then 0 - ParseDigits(s[1..]) else ParseDigits(s)
  }

  lemma {:induction false} ParseNatToString(n: nat)
    ensures ParseDigits(NatToString(n)) == n
  {
    if n >= 10 {
      ParseNatToString(n / 10);
      var s := NatToString(n);
      assert s[..|s| - 1] == NatToString(n / 10);
    }
  }

  /** %d is injective: the number is recovered from its text. */
  lemma ParseIntToString(n: int)
    ensures var s := IntToString(n); s != "" && (s[0] == '-' || IsDigit(s[0])) && AllDigits(s[1..])
    ensures ParseInt(IntToString(n)) == n
  {
    var s := IntToString(n);
    if n < 0 {
      ParseNatToString(-n);
      assert s[1..] == NatToString(-n);
    } else {
      ParseNatToString(n);
      assert AllDigits(s[1..]);
    }
  }

  // ---------------------------------------------------------------------------
  // %q of a string: double quotes, with quote and backslash escaped
  // ---------------------------------------------------------------------------

  function Escape(s: string): string {
    if s == "" then ""
    else (if s[0] == '"' || s[0] == '\\' then ['\\', s[0]] else [s[0]]) + Escape(s[1..])
  }

  function Quote(s: string): string {
    "\"" + Escape(s) + "\""
  }

  // ---------------------------------------------------------------------------
  // Lexicographic order (sort.Strings)
  // ---------------------------------------------------------------------------

  /** `a` sorts strictly before `b`. */
  predicate Less(a: string, b: string)
    decreases |a|
  {
    |b| > 0 && (|a| == 0 || a[0] < b[0] || (a[0] == b[0] && Less(a[1..], b[1..])))
  }

  lemma {:induction false} LessIrreflexive(a: string)
    ensures !Less(a, a)
    decreases |a|
  {
    if |a| > 0 {
      LessIrreflexive(a[1..]);
    }
  }

  lemma {:induction false} LessTransitive(a: string, b: string, c: string)
    requires Less(a, b) && Less(b, c)
    ensures Less(a, c)
    decreases |a|
  {
    if |a| > 0 && a[0] == b[0] && b[0] == c[0] {
      LessTransitive(a[1..], b[1..], c[1..]);
    }
  }

  lemma {:induction false} LessTotal(a: string, b: string)
    ensures a == b || Less(a, b) || Less(b, a)
    decreases |a|
  {
    if |a| > 0 && |b| > 0 && a[0] == b[0] {
      LessTotal(a[1..], b[1..]);
      if a[1..] == b[1..] {
        assert a == [a[0]] + a[1..] && b == [b[0]] + b[1..];
      }
    }
  }

  lemma LessAsymmetric(a: string, b: string)
    ensures !(Less(a, b) && Less(b, a))
  {
    if Less(a, b) && Less(b, a) {
      LessTransitive(a, b, a);
      LessIrreflexive(a);
    }
  }
}
