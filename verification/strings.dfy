/** The JavaScript string primitives the core relies on: `split`, `join`, `trim`,
    `startsWith`, `includes`, `replace`, case mapping and decimal rendering of a number. */
module Strings {
  import opened Wrappers
  import Query

  // ---------------------------------------------------------------- whitespace

  /** The characters `String.prototype.trim` removes, restricted to the ASCII
      whitespace and line terminators plus no-break space and the byte-order mark. */
  predicate IsWhitespace(c: char) {
    c == ' ' || c == '\t' || c == '\n' || c == '\r' || c == '\U{0B}' || c == '\U{0C}'
    || c == '\U{A0}' || c == '\U{FEFF}'
  }

  /** Neither end of `s` is whitespace. */
  predicate Trimmed(s: string) {
    s == [] || (!IsWhitespace(s[0]) && !IsWhitespace(s[|s| - 1]))
  }

  function TrimStart(s: string): (r: string)
    ensures |r| <= |s| && r == s[|s| - |r|..]
    ensures r == [] || !IsWhitespace(r[0])
    ensures forall i :: 0 <= i < |s| - |r| ==> IsWhitespace(s[i])
  {
    if s != [] && IsWhitespace(s[0]) then TrimStart(s[1..]) else s
  }

  function TrimEnd(s: string): (r: string)
    ensures |r| <= |s| && r == s[..|r|]
    ensures r == [] || !IsWhitespace(r[|r| - 1])
    ensures forall i :: |r| <= i < |s| ==> IsWhitespace(s[i])
  {
    if s != [] && IsWhitespace(s[|s| - 1]) then TrimEnd(s[..|s| - 1]) else s
  }

  /** `s.trim()`: the longest substring of `s` with no whitespace at either end
      obtained by removing only whitespace. */
  function Trim(s: string): (r: string)
    ensures Trimmed(r)
    ensures Trimmed(s) ==> r == s
    ensures |r| <= |s|
    ensures exists a, b :: 0 <= a <= b <= |s| && r == s[a..b] && WhitespaceOutside(s, a, b)
  {
    TrimProperties(s);
    TrimEnd(TrimStart(s))
  }

  lemma TrimProperties(s: string)
    ensures var r := TrimEnd(TrimStart(s));
      && Trimmed(r) && (Trimmed(s) ==> r == s) && |r| <= |s|
      && exists a, b :: 0 <= a <= b <= |s| && r == s[a..b] && WhitespaceOutside(s, a, b)
  {
    var t := TrimStart(s);
    var r := TrimEnd(t);
    var a := |s| - |t|;
    assert r != [] ==> r[0] == t[0];
    assert Trimmed(s) ==> t == s;
    TrimBothEnds(s, t, r);
    assert WhitespaceOutside(s, a, a + |r|);
  }

  /** Only whitespace lies outside `s[a..b]`. */
  predicate WhitespaceOutside(s: string, a: nat, b: nat)
    requires a <= b <= |s|
  {
    (forall i :: 0 <= i < a ==> IsWhitespace(s[i])) && (forall i :: b <= i < |s| ==> IsWhitespace(s[i]))
  }

  /** Cutting whitespace off the front of `s` leaves `t`, then off the back of `t`
      leaves `r`: `r` is a slice of `s` with only whitespace around it. */
  lemma TrimBothEnds(s: string, t: string, r: string)
    requires |t| <= |s| && t == s[|s| - |t|..]
    requires forall i :: 0 <= i < |s| - |t| ==> IsWhitespace(s[i])
    requires |r| <= |t| && r == t[..|r|]
    requires forall i :: |r| <= i < |t| ==> IsWhitespace(t[i])
    ensures var a := |s| - |t|;
      a + |r| <= |s| && r == s[a..a + |r|] && WhitespaceOutside(s, a, a + |r|)
  {
    var a := |s| - |t|;
    TrimCut(s, t, a, r);
    TrimTail(s, t, a, r);
    BothOutside(s, a, a + |r|);
  }

  lemma BothOutside(s: string, a: nat, b: nat)
    requires a <= b <= |s|
    requires forall i :: 0 <= i < a ==> IsWhitespace(s[i])
    requires forall i :: b <= i < |s| ==> IsWhitespace(s[i])
    ensures WhitespaceOutside(s, a, b)
  {
  }

  lemma TrimCut(s: string, t: string, a: nat, r: string)
    requires a <= |s| && t == s[a..] && |r| <= |t| && r == t[..|r|]
    ensures r == s[a..a + |r|]
  {
  }

  lemma TrimTail(s: string, t: string, a: nat, r: string)
    requires a <= |s| && t == s[a..] && |r| <= |t|
    requires forall i :: |r| <= i < |t| ==> IsWhitespace(t[i])
    ensures forall i :: a + |r| <= i < |s| ==> IsWhitespace(s[i])
  {
    forall i | a + |r| <= i < |s| ensures IsWhitespace(s[i]) {
      assert s[i] == t[i - a];
    }
  }

  // ---------------------------------------------------------------- case mapping

  /** `toUpperCase` on one character (ASCII letters only). */
  function UpperChar(c: char): char {
    if 'a' <= c <= 'z' then (c as int - 32) as char else c
  }

  /** `toLowerCase` on one character (ASCII letters only). */
  function LowerChar(c: char): char {
    if 'A' <= c <= 'Z' then (c as int + 32) as char else c
  }

  function ToUpper(s: string): (r: string)
    ensures |r| == |s| && forall i :: 0 <= i < |s| ==> r[i] == UpperChar(s[i])
  {
    if s == [] then [] else [UpperChar(s[0])] + ToUpper(s[1..])
  }

  function ToLower(s: string): (r: string)
    ensures |r| == |s| && forall i :: 0 <= i < |s| ==> r[i] == LowerChar(s[i])
  {
    if s == [] then [] else [LowerChar(s[0])] + ToLower(s[1..])
  }

  // ---------------------------------------------------------------- replace

  /** `s.replace(/x/g, y)` for single characters `x` and `y`. */
  function ReplaceAll(s: string, x: char, y: char): (r: string)
    ensures |r| == |s|
    ensures forall i :: 0 <= i < |s| ==> r[i] == if s[i] == x then y else s[i]
  {
    if s == [] then [] else [if s[0] == x then y else s[0]] + ReplaceAll(s[1..], x, y)
  }

  /** The test "is the character `x`", and its negation, as filters. */
  function IsChar(x: char): char -> bool {
    c => c == x
  }

  function NotChar(x: char): char -> bool {
    c => c != x
  }

  /** `s.replace(/x/g, '')` for a single character `x`. */
  function RemoveAll(s: string, x: char): (r: string)
    ensures x !in r
    ensures x !in s ==> r == s
    ensures |r| <= |s|
  {
    if s == [] then []
    else if s[0] == x then RemoveAll(s[1..], x)
    else [s[0]] + RemoveAll(s[1..], x)
  }

  /** Removing `x` keeps every other character of `s`, in order: the `k`-th character
      left is the `k`-th character of `s` that is not `x`. */
  lemma {:induction false} RemoveAllKeepsOrder(s: string, x: char)
    ensures var kept := Query.Matching(s, NotChar(x)); var r := RemoveAll(s, x);
      |r| == |kept| && forall k :: 0 <= k < |r| ==> r[k] == s[kept[k]]
  {
    if s != [] {
      var t := s[1..];
      RemoveAllKeepsOrder(t, x);
      var kt := Query.Matching(t, NotChar(x));
      var rt := RemoveAll(t, x);
      ShiftKept(s, kt, rt);
      Query.MatchingFront(s, NotChar(x));
      RemoveAllFront(s, x);
      RemoveAllConsStep(s, x, kt, rt, RemoveAll(s, x), Query.Matching(s, NotChar(x)));
    }
  }

  lemma RemoveAllFront(s: string, x: char)
    requires s != []
    ensures RemoveAll(s, x) == (if s[0] != x then [s[0]] else []) + RemoveAll(s[1..], x)
  {
  }

  lemma ShiftKept(s: string, kt: seq<nat>, rt: string)
    requires s != []
    requires |rt| == |kt| && forall k :: 0 <= k < |rt| ==> kt[k] < |s[1..]| && rt[k] == s[1..][kt[k]]
    ensures forall k :: 0 <= k < |rt| ==> kt[k] < |s| - 1 && rt[k] == s[kt[k] + 1]
  {
  }

  lemma RemoveAllConsStep(s: string, x: char, kt: seq<nat>, rt: string, r: string, kept: seq<nat>)
    requires s != []
    requires |rt| == |kt| && forall k :: 0 <= k < |rt| ==> kt[k] < |s| - 1 && rt[k] == s[kt[k] + 1]
    requires r == (if s[0] != x then [s[0]] else []) + rt
    requires kept == (if NotChar(x)(s[0]) then [0] else []) + Query.Shifted(kt)
    ensures |r| == |kept| && forall k :: 0 <= k < |r| ==> r[k] == s[kept[k]]
  {
    if s[0] != x {
      ConsKeeps(s, [s[0]], [0], rt, kt);
    } else {
      ConsKeeps(s, [], [], rt, kt);
    }
  }

  /** Putting the first character back in front of what was kept of the rest. */
  lemma ConsKeeps(s: string, front: string, ids: seq<nat>, rt: string, kt: seq<nat>)
    requires s != []
    requires (front == [s[0]] && ids == [0]) || (front == [] && ids == [])
    requires |rt| == |kt| && forall k :: 0 <= k < |rt| ==> kt[k] < |s| - 1 && rt[k] == s[kt[k] + 1]
    ensures var r := front + rt; var kept := ids + Query.Shifted(kt);
      |r| == |kept| && forall k :: 0 <= k < |r| ==> kept[k] < |s| && r[k] == s[kept[k]]
  {
    var r := front + rt;
    var kept := ids + Query.Shifted(kt);
    forall k | 0 <= k < |r| ensures kept[k] < |s| && r[k] == s[kept[k]] {
      if k >= |front| {
        assert r[k] == rt[k - |front|];
        assert kept[k] == kt[k - |front|] + 1;
      }
    }
  }

  /** `s.replace(x, y)` with a one-character string pattern: only the first occurrence. */
  function ReplaceFirst(s: string, x: char, y: char): (r: string)
    ensures |r| == |s|
    ensures x !in s ==> r == s
  {
    if s == [] then []
    else if s[0] == x then [y] + s[1..]
    else [s[0]] + ReplaceFirst(s[1..], x, y)
  }

  /** With `k` the first index holding `x`, exactly that character becomes `y`. */
  lemma {:induction false} ReplaceFirstAt(s: string, x: char, y: char, k: nat)
    requires k < |s| && s[k] == x && x !in s[..k]
    ensures ReplaceFirst(s, x, y) == s[..k] + [y] + s[k + 1..]
  {
    if k > 0 {
      assert s[0] in s[..k];
      var t := s[1..];
      assert t[..k - 1] == s[1..k];
      assert x !in t[..k - 1];
      ReplaceFirstAt(t, x, y, k - 1);
      assert t[k..] == s[k + 1..];
      assert s[..k] == [s[0]] + t[..k - 1];
    }
  }

  /** Character by character: the first `x`, and no other character, becomes `y`. */
  lemma ReplaceFirstPointwise(s: string, x: char, y: char)
    ensures var r := ReplaceFirst(s, x, y); var first := Query.First(s, IsChar(x));
      |r| == |s| && forall k :: 0 <= k < |s| ==> r[k] == if Some(k) == first then y else s[k]
  {
    var first := Query.First(s, IsChar(x));
    if first.Some? {
      var j := first.value;
      FirstHasNoneBefore(s, x, j);
      ReplaceFirstAt(s, x, y, j);
      SpliceAt(s, j, y, ReplaceFirst(s, x, y));
    } else {
      NoneHasNo(s, x);
    }
  }

  lemma FirstHasNoneBefore(s: string, x: char, j: nat)
    requires Query.First(s, IsChar(x)) == Some(j)
    ensures j < |s| && s[j] == x && x !in s[..j]
  {
    assert forall i :: 0 <= i < j ==> !IsChar(x)(s[i]);
  }

  lemma NoneHasNo(s: string, x: char)
    requires Query.First(s, IsChar(x)).None?
    ensures x !in s
  {
    assert forall i :: 0 <= i < |s| ==> !IsChar(x)(s[i]);
  }

  lemma SpliceAt(s: string, j: nat, y: char, r: string)
    requires j < |s| && r == s[..j] + [y] + s[j + 1..]
    ensures |r| == |s| && forall k :: 0 <= k < |s| ==> r[k] == if k == j then y else s[k]
  {
  }

  /** Number of occurrences of `c` in `s`. */
  function CountChar(s: string, c: char): nat {
    if s == [] then 0 else (if s[0] == c then 1 else 0) + CountChar(s[1..], c)
  }

  lemma {:induction false} CountCharAppend(a: string, b: string, c: char)
    ensures CountChar(a + b, c) == CountChar(a, c) + CountChar(b, c)
  {
    if a == [] {
      assert a + b == b;
    } else {
      assert (a + b)[0] == a[0];
      assert (a + b)[1..] == a[1..] + b;
      CountCharAppend(a[1..], b, c);
    }
  }

  lemma {:induction false} CountCharAbsent(s: string, c: char)
    requires c !in s
    ensures CountChar(s, c) == 0
  {
    if s != [] {
      CountCharAbsent(s[1..], c);
    }
  }

  // ---------------------------------------------------------------- split and join

  /** Index of the first occurrence of `sep` in `s`, as `indexOf` finds it. */
  function IndexOf(s: string, sep: string): (r: Option<nat>)
    requires sep != []
    ensures r.Some? ==> r.value + |sep| <= |s| && sep <= s[r.value..]
    ensures r.Some? ==> forall j :: 0 <= j < r.value ==> !(sep <= s[j..])
    ensures r.None? ==> forall j :: 0 <= j <= |s| ==> !(sep <= s[j..])
    decreases |s|
  {
    if |s| < |sep| then None
    else if sep <= s then Some(0)
    else
      match IndexOf(s[1..], sep)
      case None =>
        assert forall j :: 1 <= j <= |s| ==> s[j..] == s[1..][j - 1..];
        None
      case Some(i) =>
        assert forall j :: 1 <= j <= i + 1 ==> s[j..] == s[1..][j - 1..];
        assert s[i + 1..] == s[1..][i..];
        Some(i + 1)
  }

  /** `s.split(sep)` for a non-empty separator string. */
  function SplitOn(s: string, sep: string): (parts: seq<string>)
    requires sep != []
    ensures |parts| >= 1
    decreases |s|
  {
    match IndexOf(s, sep)
    case None => [s]
    case Some(i) => [s[..i]] + SplitOn(s[i + |sep|..], sep)
  }

  /** `parts.join(sep)`. */
  function Join(parts: seq<string>, sep: string): string {
    if |parts| == 0 then ""
    else if |parts| == 1 then parts[0]
    else parts[0] + sep + Join(parts[1..], sep)
  }

  lemma JoinCons(x: string, t: seq<string>, sep: string)
    requires |t| >= 1
    ensures Join([x] + t, sep) == x + sep + Join(t, sep)
  {
    assert ([x] + t)[0] == x && ([x] + t)[1..] == t;
  }

  /** Cutting `s` around a separator found at `i` and gluing it back gives `s`. */
  lemma CutAround(s: string, sep: string, i: nat)
    requires i + |sep| <= |s| && sep <= s[i..]
    ensures s == s[..i] + sep + s[i + |sep|..]
  {
    assert s[i..i + |sep|] == sep;
    assert s == s[..i] + s[i..i + |sep|] + s[i + |sep|..];
  }

  /** Splitting and joining again on the same separator gives the input back. */
  lemma {:induction false} JoinSplit(s: string, sep: string)
    requires sep != []
    ensures Join(SplitOn(s, sep), sep) == s
    decreases |s|
  {
    var found := IndexOf(s, sep);
    if found.Some? {
      var i := found.value;
      var rest := s[i + |sep|..];
      JoinSplit(rest, sep);
      JoinCons(s[..i], SplitOn(rest, sep), sep);
      CutAround(s, sep, i);
    }
  }

  /** For a one-character separator, splitting at the first separator. */
  lemma SplitFirstChar(a: string, b: string, c: char)
    requires c !in a
    ensures SplitOn(a + [c] + b, [c]) == [a] + SplitOn(b, [c])
  {
    var s := a + [c] + b;
    assert [c] <= s[|a|..];
    var r := IndexOf(s, [c]);
    assert r.Some? && r.value <= |a|;
    assert forall j :: 0 <= j < |a| ==> s[j] == a[j] && s[j] != c;
    assert s[r.value] == c;
    assert r == Some(|a|);
    assert s[..|a|] == a;
    assert s[|a| + 1..] == b;
  }

  /** Splitting a string that has no separator gives the whole string. */
  lemma SplitNoChar(s: string, c: char)
    requires c !in s
    ensures SplitOn(s, [c]) == [s]
  {
    forall j | 0 <= j < |s| ensures !([c] <= s[j..]) {
      assert s[j..][0] == s[j];
    }
  }

  /** The first field of `s.split(c)`: everything before the first `c`, and what follows it. */
  lemma {:induction false} SplitHeadChar(s: string, c: char)
    ensures var p := SplitOn(s, [c]);
      && c !in p[0] && p[0] == s[..|p[0]|]
      && (|p| == 1 <==> p[0] == s)
      && (|p| > 1 ==> |p[0]| < |s| && s[|p[0]|] == c && p[1..] == SplitOn(s[|p[0]| + 1..], [c]))
  {
    match IndexOf(s, [c])
    case None =>
      forall j | 0 <= j < |s| ensures s[j] != c {
        assert !([c] <= s[j..]);
      }
    case Some(i) =>
      forall j | 0 <= j < i ensures s[j] != c {
        assert !([c] <= s[j..]);
      }
      var p := SplitOn(s, [c]);
      assert p == [s[..i]] + SplitOn(s[i + 1..], [c]);
  }

  /** A one-character split has one more field than there are separators. */
  lemma {:induction false} SplitCountChar(s: string, c: char)
    ensures |SplitOn(s, [c])| == CountChar(s, c) + 1
    decreases |s|
  {
    var p := SplitOn(s, [c]);
    SplitHeadChar(s, c);
    var a := p[0];
    CountCharAbsent(a, c);
    if |p| == 1 {
    } else {
      var b := s[|a| + 1..];
      assert s == a + ([c] + b);
      assert p[1..] == SplitOn(b, [c]);
      CountCharAppend(a, [c] + b, c);
      CountCharAppend([c], b, c);
      assert CountChar([c], c) == 1 by { assert [c][1..] == []; }
      SplitCountChar(b, c);
      assert |p| == 1 + |SplitOn(b, [c])|;
    }
  }

  // ---------------------------------------------------------------- prefixes

  /** `s.replace(/^p/, '')`: remove `p` only when `s` starts with it. */
  function StripPrefix(s: string, p: string): (r: string)
    ensures p <= s ==> s == p + r
    ensures !(p <= s) ==> r == s
  {
    if p <= s then s[|p|..] else s
  }

  // ---------------------------------------------------------------- numbers

  function DigitChar(d: nat): (c: char)
    requires d < 10
    ensures IsDigit(c) && c as int - '0' as int == d
  {
    ('0' as int + d) as char
  }

  predicate IsDigit(c: char) {
    '0' <= c <= '9'
  }

  /** Decimal rendering of a natural number, as template strings and `String(n)` produce. */
  function NatToString(n: nat): (r: string)
    ensures |r| >= 1 && forall i :: 0 <= i < |r| ==> IsDigit(r[i])
  {
    if n < 10 then [DigitChar(n)] else NatToString(n / 10) + [DigitChar(n % 10)]
  }

  /** `String(n)`, read back as a decimal number, is `n`. */
  lemma {:induction false} NatToStringRoundTrip(n: nat)
    ensures DecimalValue(NatToString(n)) == n
  {
    if n >= 10 {
      NatToStringRoundTrip(n / 10);
      DecimalValueSnoc(NatToString(n / 10), DigitChar(n % 10));
    }
  }

  /** The value of a string of decimal digits. */
  function DecimalValue(s: string): nat
    requires forall i :: 0 <= i < |s| ==> IsDigit(s[i])
  {
    if s == [] then 0
    else
      assert IsDigit(s[|s| - 1]);
      DecimalValue(s[..|s| - 1]) * 10 + (s[|s| - 1] as int - '0' as int)
  }

  lemma DecimalValueSnoc(s: string, c: char)
    requires forall i :: 0 <= i < |s| ==> IsDigit(s[i])
    requires IsDigit(c)
    ensures DecimalValue(s + [c]) == DecimalValue(s) * 10 + (c as int - '0' as int)
  {
    assert (s + [c])[..|s|] == s;
  }
}
