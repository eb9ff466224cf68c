/** String operations shared by the models: the JavaScript and Rust library calls
    the repository relies on (startsWith, includes, indexOf, replace with a string
    pattern, split on one character, join, trim, ASCII lowercasing, Array.slice
    index normalisation). Strings are `seq<char>`. */
module Strings {

  predicate StartsWith(s: string, p: string) {
    |p| <= |s| && s[..|p|] == p
  }

  predicate EndsWith(s: string, p: string) {
    |p| <= |s| && s[|s| - |p|..] == p
  }

  /** `t` occurs in `s` at index `i`. */
  predicate OccursAt(s: string, t: string, i: int) {
    0 <= i && i + |t| <= |s| && s[i..i + |t|] == t
  }

  /** `s.includes(t)` / `str::contains`. */
  predicate Contains(s: string, t: string) {
    exists i :: 0 <= i <= |s| && OccursAt(s, t, i)
  }

  lemma OccursShift(s: string, t: string, j: int)
    requires |s| > 0 && j >= 0
    ensures OccursAt(s[1..], t, j) <==> OccursAt(s, t, j + 1)
  {
    if 0 <= j && j + |t| <= |s| - 1 {
      assert s[1..][j..j + |t|] == s[j + 1..j + 1 + |t|];
    }
  }

  /** `s.indexOf(t)`: the first index at which `t` occurs, or -1. */
  function IndexOf(s: string, t: string): (r: int)
    ensures r == -1 || OccursAt(s, t, r)
    decreases |s|
  {
    if |t| > |s| then -1
    else if s[..|t|] == t then 0
    else
      var k := IndexOf(s[1..], t);
      if k < 0 then -1
      else
        OccursShift(s, t, k);
        k + 1
  }

  /** `IndexOf` finds the first occurrence, and -1 means there is none. */
  lemma {:induction false} IndexOfFirst(s: string, t: string)
    ensures var r := IndexOf(s, t);
      (r >= 0 ==> forall j :: 0 <= j < r ==> !OccursAt(s, t, j)) &&
      (r == -1 <==> !Contains(s, t))
    decreases |s|
  {
    var r := IndexOf(s, t);
    if |t| > |s| {
    } else if s[..|t|] == t {
      assert OccursAt(s, t, 0);
    } else {
      IndexOfFirst(s[1..], t);
      var k := IndexOf(s[1..], t);
      assert !OccursAt(s, t, 0);
      forall j | 0 <= j ensures OccursAt(s[1..], t, j) <==> OccursAt(s, t, j + 1) {
        OccursShift(s, t, j);
      }
      if k < 0 {
        assert forall i :: 1 <= i <= |s| ==> !OccursAt(s, t, i) by {
          forall i | 1 <= i <= |s| ensures !OccursAt(s, t, i) {
            assert !OccursAt(s[1..], t, i - 1);
          }
        }
      } else {
        assert forall j :: 1 <= j < k + 1 ==> !OccursAt(s, t, j) by {
          forall j | 1 <= j < k + 1 ensures !OccursAt(s, t, j) {
            assert !OccursAt(s[1..], t, j - 1);
          }
        }
        assert OccursAt(s, t, k + 1);
      }
    }
  }

  /** Rust's `replacen(from, to, 1)`, and JavaScript's `s.replace(from, to)` with
      a string pattern and a replacement text without `$`: only the first
      occurrence is replaced. */
  function ReplaceFirst(s: string, from: string, to: string): (r: string)
    decreases |s|
  {
    if |from| > |s| then s
    else if s[..|from|] == from then to + s[|from|..]
    else [s[0]] + ReplaceFirst(s[1..], from, to)
  }

  /** Without an occurrence nothing is replaced. */
  lemma {:induction false} ReplaceFirstNone(s: string, from: string, to: string)
    requires IndexOf(s, from) < 0
    ensures ReplaceFirst(s, from, to) == s
    decreases |s|
  {
    if |from| <= |s| {
      var t := s[1..];
      ReplaceFirstNone(t, from, to);
      assert s == [s[0]] + t;
    }
  }

  /** With an occurrence, the first one is replaced. */
  lemma {:induction false} ReplaceFirstFound(s: string, from: string, to: string)
    requires IndexOf(s, from) >= 0
    ensures var i := IndexOf(s, from);
      ReplaceFirst(s, from, to) == s[..i] + to + s[i + |from|..]
    decreases |s|
  {
    assert |from| <= |s|;
    if s[..|from|] == from {
      assert IndexOf(s, from) == 0;
      assert s[..0] == [];
    } else {
      var t := s[1..];
      var k := IndexOf(t, from);
      assert IndexOf(s, from) == k + 1;
      ReplaceFirstFound(t, from, to);
      ReplaceFirstCons(s, from, to, k);
    }
  }

  lemma ReplaceFirstCons(s: string, from: string, to: string, k: nat)
    requires |from| <= |s| && s[..|from|] != from
    requires k + |from| < |s|
    requires ReplaceFirst(s[1..], from, to) == s[1..][..k] + to + s[1..][k + |from|..]
    ensures ReplaceFirst(s, from, to) == s[..k + 1] + to + s[k + 1 + |from|..]
  {
    var t := s[1..];
    var a, b := t[..k], t[k + |from|..];
    assert s[..k + 1] == [s[0]] + a;
    assert s[k + 1 + |from|..] == b;
    calc {
      ReplaceFirst(s, from, to);
      [s[0]] + ReplaceFirst(t, from, to);
      [s[0]] + (a + to + b);
      ([s[0]] + a) + to + b;
    }
  }

  /** The replacement happens at the index `IndexOf` finds, and nothing changes
      when there is no occurrence. */
  lemma ReplaceFirstAtIndex(s: string, from: string, to: string)
    ensures var i := IndexOf(s, from);
      ReplaceFirst(s, from, to) == if i < 0 then s else s[..i] + to + s[i + |from|..]
  {
    if IndexOf(s, from) < 0 {
      ReplaceFirstNone(s, from, to);
    } else {
      ReplaceFirstFound(s, from, to);
    }
  }

  /** Rust `char::is_whitespace` and the JavaScript `trim` set, restricted to ASCII. */
  predicate IsSpace(c: char) {
    c == ' ' || c == '\t' || c == '\n' || c == '\r' || c == '\U{000B}' || c == '\U{000C}'
  }

  predicate AllSpace(s: string) {
    forall i :: 0 <= i < |s| ==> IsSpace(s[i])
  }

  function TrimStart(s: string): (r: string)
    ensures |r| <= |s| && r == s[|s| - |r|..]
    ensures r == [] || !IsSpace(r[0])
    ensures AllSpace(s[..|s| - |r|])
    decreases |s|
  {
    if |s| > 0 && IsSpace(s[0]) then
      var r := TrimStart(s[1..]);
      assert s[..|s| - |r|] == [s[0]] + s[1..][..|s| - 1 - |r|];
      r
    else s
  }

  function TrimEnd(s: string): (r: string)
    ensures |r| <= |s| && r == s[..|r|]
    ensures r == [] || !IsSpace(r[|r| - 1])
    ensures AllSpace(s[|r|..])
    decreases |s|
  {
    if |s| > 0 && IsSpace(s[|s| - 1]) then
      var r := TrimEnd(s[..|s| - 1]);
      assert s[|r|..] == s[..|s| - 1][|r|..] + [s[|s| - 1]];
      r
    else s
  }

  /** `s.trim()`: leading and trailing whitespace removed. */
  function Trim(s: string): (r: string)
  {
    TrimEnd(TrimStart(s))
  }

  /** Leading whitespace stops at the first character that is not a space. */
  lemma {:induction false} TrimStartAppend(a: string, b: string)
    requires b != [] && !IsSpace(b[0])
    ensures TrimStart(a + b) == TrimStart(a) + b
    decreases |a|
  {
    if a == [] {
      assert a + b == b;
    } else if IsSpace(a[0]) {
      assert (a + b)[1..] == a[1..] + b;
      TrimStartAppend(a[1..], b);
    }
  }

  /** Trailing whitespace stops at the last character that is not a space. */
  lemma {:induction false} TrimEndPrepend(a: string, b: string)
    requires a != [] && !IsSpace(a[|a| - 1])
    ensures TrimEnd(a + b) == a + TrimEnd(b)
    decreases |b|
  {
    if b == [] {
      assert a + b == a;
    } else if IsSpace(b[|b| - 1]) {
      assert (a + b)[..|a + b| - 1] == a + b[..|b| - 1];
      TrimEndPrepend(a, b[..|b| - 1]);
    }
  }

  lemma {:induction false} TrimStartAllSpace(s: string)
    requires AllSpace(s)
    ensures TrimStart(s) == []
    decreases |s|
  {
    if s != [] {
      assert IsSpace(s[0]);
      TrimStartAllSpace(s[1..]);
    }
  }

  lemma Regroup3(a: string, b: string, c: string)
    ensures a + b + c == a + (b + c)
  {
  }

  /** Trimming a text whose middle starts and ends with non-blanks trims only
      the outer parts. */
  lemma TrimAround(pre: string, m: string, post: string)
    requires m != [] && !IsSpace(m[0]) && !IsSpace(m[|m| - 1])
    ensures Trim(pre + m + post) == TrimStart(pre) + m + TrimEnd(post)
  {
    var t := TrimStart(pre);
    var mp := m + post;
    Regroup3(pre, m, post);
    TrimStartAppend(pre, mp);
    var a := t + m;
    Regroup3(t, m, post);
    assert a[|a| - 1] == m[|m| - 1];
    TrimEndPrepend(a, post);
  }

  /** A string that neither starts nor ends with whitespace is its own trim. */
  lemma TrimUnchanged(s: string)
    requires s == [] || (!IsSpace(s[0]) && !IsSpace(s[|s| - 1]))
    ensures Trim(s) == s
  {
  }

  /** A trim neither starts nor ends with whitespace, so trimming twice is
      trimming once. */
  lemma TrimClean(s: string)
    ensures var r := Trim(s); r == [] || (!IsSpace(r[0]) && !IsSpace(r[|r| - 1]))
    ensures Trim(Trim(s)) == Trim(s)
  {
    var t := TrimStart(s);
    var r := TrimEnd(t);
    assert r != [] ==> r[0] == t[0];
    TrimUnchanged(r);
  }

  lemma TrimEmptyIffAllSpace(s: string)
    ensures Trim(s) == [] <==> AllSpace(s)
  {
    var a := TrimStart(s);
    var n := |s| - |a|;
    assert a != [] ==> a[0] == s[n];
    assert a[0..] == a;
    assert |TrimEnd(a)| == 0 ==> AllSpace(a);
    assert a == [] ==> s[..n] == s;
  }

  /** ASCII lowercasing (the Unicode table of `toLowerCase` is not modelled). */
  function LowerChar(c: char): (r: char)
  {
    if 'A' <= c <= 'Z' then (c as int + 32) as char else c
  }

  function ToLower(s: string): (r: string)
    ensures |r| == |s|
    decreases |s|
  {
    if s == [] then [] else [LowerChar(s[0])] + ToLower(s[1..])
  }

  /** Lowercasing works character by character. */
  lemma {:induction false} ToLowerAt(s: string, i: nat)
    requires i < |s|
    ensures ToLower(s)[i] == LowerChar(s[i])
    decreases |s|
  {
    if i > 0 {
      ToLowerAt(s[1..], i - 1);
    }
  }

  /** A string without capitals is its own lowercase. */
  lemma {:induction false} ToLowerNoCapitals(s: string)
    requires forall i :: 0 <= i < |s| ==> !('A' <= s[i] <= 'Z')
    ensures ToLower(s) == s
    decreases |s|
  {
    if s != [] {
      assert forall i :: 0 <= i < |s[1..]| ==> s[1..][i] == s[i + 1];
      ToLowerNoCapitals(s[1..]);
      assert s == [s[0]] + s[1..];
    }
  }

  /** Lowercasing twice is lowercasing once. */
  lemma ToLowerIdempotent(s: string)
    ensures ToLower(ToLower(s)) == ToLower(s)
  {
    var l := ToLower(s);
    forall i | 0 <= i < |l| ensures !('A' <= l[i] <= 'Z') {
      ToLowerAt(s, i);
    }
    ToLowerNoCapitals(l);
  }

  /** ASCII uppercasing, for the analyser's `to_uppercase`. */
  function UpperChar(c: char): (r: char)
  {
    if 'a' <= c <= 'z' then (c as int - 32) as char else c
  }

  function ToUpper(s: string): (r: string)
    ensures |r| == |s|
    decreases |s|
  {
    if s == [] then [] else [UpperChar(s[0])] + ToUpper(s[1..])
  }

  lemma {:induction false} ToUpperAt(s: string, i: nat)
    requires i < |s|
    ensures ToUpper(s)[i] == UpperChar(s[i])
    decreases |s|
  {
    if i > 0 {
      ToUpperAt(s[1..], i - 1);
    }
  }

  /** `ToUpper(s)` is `t` when `t` is `s` uppercased character by character. */
  lemma {:induction false} ToUpperIs(s: string, t: string)
    requires |s| == |t| && forall i :: 0 <= i < |s| ==> UpperChar(s[i]) == t[i]
    ensures ToUpper(s) == t
    decreases |s|
  {
    if s != [] {
      assert forall i :: 0 <= i < |s[1..]| ==> s[1..][i] == s[i + 1] && t[1..][i] == t[i + 1];
      ToUpperIs(s[1..], t[1..]);
      assert t == [t[0]] + t[1..];
    }
  }

  /** `xs.contains(x)`, written out so that it unfolds only as far as needed. */
  predicate Member(x: string, xs: seq<string>)
  {
    xs != [] && (xs[0] == x || Member(x, xs[1..]))
  }

  lemma {:induction false} MemberIn(x: string, xs: seq<string>)
    ensures Member(x, xs) <==> x in xs
  {
    if xs != [] {
      MemberIn(x, xs[1..]);
      assert xs == [xs[0]] + xs[1..];
    }
  }

  /** `parts.join(sep)`. */
  function Join(parts: seq<string>, sep: string): string
  {
    if |parts| == 0 then ""
    else if |parts| == 1 then parts[0]
    else parts[0] + sep + Join(parts[1..], sep)
  }

  /** `s.split(c)` in JavaScript and Rust alike: the empty string gives `[""]`,
      and adjacent separators give empty parts. */
  function Split(s: string, c: char): (r: seq<string>)
    ensures |r| >= 1
    decreases |s|
  {
    if s == [] then [""]
    else
      var rest := Split(s[1..], c);
      if s[0] == c then [""] + rest
      else [[s[0]] + rest[0]] + rest[1..]
  }

  /** No part contains the separator, and joining the parts on it gives `s` back. */
  lemma {:induction false} SplitParts(s: string, c: char)
    ensures forall i :: 0 <= i < |Split(s, c)| ==> c !in Split(s, c)[i]
    ensures Join(Split(s, c), [c]) == s
    decreases |s|
  {
    if s != [] {
      SplitParts(s[1..], c);
      var rest := Split(s[1..], c);
      assert s == [s[0]] + s[1..];
      if s[0] != c {
        var r := [[s[0]] + rest[0]] + rest[1..];
        assert r[1..] == rest[1..];
        assert forall i :: 1 <= i < |r| ==> r[i] == rest[i];
      }
    }
  }

  lemma {:induction false} SplitWithout(a: string, c: char)
    requires c !in a
    ensures Split(a, c) == [a]
    decreases |a|
  {
    if a != [] {
      SplitWithout(a[1..], c);
      assert a == [a[0]] + a[1..];
    }
  }

  /** Splitting at the first separator: the part before it, then the rest. */
  lemma {:induction false} SplitAtSeparator(a: string, c: char, b: string)
    requires c !in a
    ensures Split(a + [c] + b, c) == [a] + Split(b, c)
    decreases |a|
  {
    if a == [] {
      assert a + [c] + b == [c] + b;
      assert ([c] + b)[1..] == b;
    } else {
      var s := a + [c] + b;
      assert s[1..] == a[1..] + [c] + b;
      SplitAtSeparator(a[1..], c, b);
      assert [a[0]] + a[1..] == a;
    }
  }

  /** The parts of what follows a separator are the last parts of the whole. */
  lemma {:induction false} SplitSuffix(a: string, c: char, b: string)
    ensures var whole := Split(a + [c] + b, c);
      var tail := Split(b, c);
      |tail| < |whole| && whole[|whole| - |tail|..] == tail
    decreases |a|
  {
    var s := a + [c] + b;
    if a == [] {
      assert s == [c] + b;
      assert s[1..] == b;
    } else {
      assert s[1..] == a[1..] + [c] + b;
      SplitSuffix(a[1..], c, b);
    }
  }

  /** Joining one more part appends the separator and the part. */
  lemma {:induction false} JoinSnoc(parts: seq<string>, sep: string, x: string)
    requires |parts| >= 1
    ensures Join(parts + [x], sep) == Join(parts, sep) + sep + x
  {
    if |parts| > 1 {
      assert (parts + [x])[1..] == parts[1..] + [x];
      JoinSnoc(parts[1..], sep, x);
    }
  }

  /** Splitting a string with one more part behind a separator. */
  lemma SplitSnoc(a: string, c: char, x: string)
    requires c !in x
    ensures Split(a + [c] + x, c) == Split(a, c) + [x]
  {
    var ps := Split(a, c);
    SplitParts(a, c);
    JoinSnoc(ps, [c], x);
    SplitJoin(ps + [x], c);
  }

  /** Splitting a join on a separator that no part contains gives the parts back. */
  lemma {:induction false} SplitJoin(parts: seq<string>, c: char)
    requires |parts| >= 1
    requires forall i :: 0 <= i < |parts| ==> c !in parts[i]
    ensures Split(Join(parts, [c]), c) == parts
  {
    if |parts| == 1 {
      SplitWithout(parts[0], c);
    } else {
      SplitJoin(parts[1..], c);
      SplitAtSeparator(parts[0], c, Join(parts[1..], [c]));
      assert parts == [parts[0]] + parts[1..];
    }
  }

  /** A join ends with the last character of its last part. */
  lemma {:induction false} JoinLastChar(parts: seq<string>, sep: string)
    requires |parts| >= 1 && parts[|parts| - 1] != []
    ensures |Join(parts, sep)| > 0
    ensures Join(parts, sep)[|Join(parts, sep)| - 1] == parts[|parts| - 1][|parts[|parts| - 1]| - 1]
  {
    if |parts| > 1 {
      JoinLastChar(parts[1..], sep);
    }
  }

  /** A character in a join comes from a part or from a separator. */
  lemma {:induction false} JoinChars(parts: seq<string>, sep: string, x: char)
    requires x in Join(parts, sep)
    ensures x in sep || exists i :: 0 <= i < |parts| && x in parts[i]
  {
    if |parts| > 1 {
      var rest := Join(parts[1..], sep);
      assert Join(parts, sep) == parts[0] + sep + rest;
      if x !in parts[0] && x !in sep {
        JoinChars(parts[1..], sep, x);
        var i :| 0 <= i < |parts[1..]| && x in parts[1..][i];
        assert x in parts[i + 1];
      }
    }
  }

  /** `.filter(Boolean)` on a list of strings: the non-empty ones, in order. */
  function NonEmpty(parts: seq<string>): (r: seq<string>)
    ensures |r| <= |parts|
  {
    if parts == [] then []
    else if parts[0] == [] then NonEmpty(parts[1..])
    else [parts[0]] + NonEmpty(parts[1..])
  }

  /** `NonEmpty` of a concatenation filters each side. */
  lemma {:induction false} NonEmptyAppend(x: seq<string>, y: seq<string>)
    ensures NonEmpty(x + y) == NonEmpty(x) + NonEmpty(y)
  {
    if x == [] {
      assert x + y == y;
    } else {
      assert (x + y)[1..] == x[1..] + y;
      NonEmptyAppend(x[1..], y);
    }
  }

  /** `NonEmpty` keeps exactly the non-empty parts. */
  lemma {:induction false} NonEmptyMembers(parts: seq<string>)
    ensures forall i :: 0 <= i < |NonEmpty(parts)| ==> NonEmpty(parts)[i] != [] && NonEmpty(parts)[i] in parts
    ensures forall p :: p in parts && p != [] ==> p in NonEmpty(parts)
  {
    if parts != [] {
      NonEmptyMembers(parts[1..]);
      assert parts == [parts[0]] + parts[1..];
    }
  }

  /** A list without empty parts is its own `NonEmpty`. */
  lemma {:induction false} NonEmptyAll(parts: seq<string>)
    requires forall i :: 0 <= i < |parts| ==> parts[i] != []
    ensures NonEmpty(parts) == parts
  {
    if parts != [] {
      NonEmptyAll(parts[1..]);
      assert parts == [parts[0]] + parts[1..];
    }
  }

  /** The index normalisation of JavaScript's `slice`: negative indices count from
      the end, everything is clamped into `[0, len]`. */
  function JsIndex(i: int, len: nat): (r: nat)
    ensures r <= len
  {
    if i < 0 then (if len + i < 0 then 0 else len + i)
    else if i > len then len
    else i
  }

  /** `s.slice(a, b)`. */
  function JsSlice(s: string, a: int, b: int): string
  {
    var x := JsIndex(a, |s|);
    var y := JsIndex(b, |s|);
    if x <= y then s[x..y] else ""
  }

  /** `s.slice(a)`. */
  function JsSliceFrom(s: string, a: int): string
  {
    s[JsIndex(a, |s|)..]
  }

  function DigitChar(d: nat): (r: char)
    requires d < 10
    ensures '0' <= r <= '9' && r as int - '0' as int == d
  {
    ['0', '1', '2', '3', '4', '5', '6', '7', '8', '9'][d]
  }

  /** The decimal text JavaScript gives a non-negative integer. */
  function NatToString(n: nat): (r: string)
    ensures |r| >= 1 && forall i :: 0 <= i < |r| ==> '0' <= r[i] <= '9'
  {
    if n < 10 then [DigitChar(n)] else NatToString(n / 10) + [DigitChar(n % 10)]
  }

  /** `String(n)` for an integer. */
  function IntToString(i: int): (r: string)
    ensures |r| >= 1 && '\n' !in r
  {
    if i < 0 then "-" + NatToString(-i) else NatToString(i)
  }

  /** Reading decimal digits back, most significant first. */
  function ParseDigits(s: string): nat
    requires forall i :: 0 <= i < |s| ==> '0' <= s[i] <= '9'
  {
    if s == [] then 0 else ParseDigits(s[..|s| - 1]) * 10 + (s[|s| - 1] as int - '0' as int)
  }

  /** The decimal text of a number reads back as that number. */
  lemma {:induction false} NatToStringRoundTrip(n: nat)
    ensures ParseDigits(NatToString(n)) == n
  {
    if n >= 10 {
      var s := NatToString(n);
      NatToStringRoundTrip(n / 10);
      assert s[..|s| - 1] == NatToString(n / 10);
    }
  }
}
