/** The string helpers of shared/utils/formatter.ts: full-name and NPWP (Indonesian
    tax number) formatting, option-list sanitising, the string step of the separator
    parser and the numeric key filter. */
module Formatter {
  import opened Wrappers
  import opened Strings
  import Query

  // ---------------------------------------------------------------- full name

  /** `${firstName} ${lastName}`.trim(). */
  function FormatFullName(firstName: string, lastName: string): (r: string)
    ensures Trimmed(r)
    ensures firstName != "" && lastName != "" && Trimmed(firstName) && Trimmed(lastName) ==>
      r == firstName + " " + lastName
  {
    var s := firstName + " " + lastName;
    assert firstName != "" && lastName != "" ==>
      s[0] == firstName[0] && s[|s| - 1] == lastName[|lastName| - 1];
    Trim(s)
  }

  // ---------------------------------------------------------------- NPWP

  /** The shape `formatNpwp` produces: `d` stands for a digit, every other character
      of the pattern for itself. */
  const NpwpPattern: string := "dd.ddd.ddd.d-ddd.ddd"

  predicate IsNpwpShaped(s: string) {
    |s| == |NpwpPattern|
    && forall i :: 0 <= i < |s| ==>
         if NpwpPattern[i] == 'd' then IsDigit(s[i]) else s[i] == NpwpPattern[i]
  }

  predicate AllDigits(s: string) {
    forall i :: 0 <= i < |s| ==> IsDigit(s[i])
  }

  /** `npwp.replace(/(\d{2})(\d{3})(\d{3})(\d{1})(\d{3})(\d{3})/, '$1.$2.$3.$4-$5.$6')`
      on an input of length 15: the unanchored pattern needs fifteen digits in a row,
      so it matches exactly when the whole input is digits. Any other length is
      returned as it is. */
  function FormatNpwp(npwp: string): (r: string)
    ensures |npwp| != 15 ==> r == npwp
    ensures |npwp| == 15 && !AllDigits(npwp) ==> r == npwp
    ensures |npwp| == 15 && AllDigits(npwp) ==> IsNpwpShaped(r)
  {
    if |npwp| == 15 && AllDigits(npwp) then
      npwp[..2] + "." + npwp[2..5] + "." + npwp[5..8] + "." + npwp[8..9] + "-"
      + npwp[9..12] + "." + npwp[12..]
    else npwp
  }

  lemma {:induction false} RemoveAllAppend(a: string, b: string, x: char)
    ensures RemoveAll(a + b, x) == RemoveAll(a, x) + RemoveAll(b, x)
  {
    if a == [] {
      assert a + b == b;
    } else {
      assert (a + b)[0] == a[0];
      assert (a + b)[1..] == a[1..] + b;
      RemoveAllAppend(a[1..], b, x);
    }
  }

  lemma RemoveOne(c: char, x: char)
    ensures RemoveAll([c], x) == if c == x then [] else [c]
  {
    assert [c][0] == c && [c][1..] == [];
  }

  /** Removing `x` drops a separator `x` between two pieces ... */
  lemma RemoveSeparator(a: string, p: string, x: char)
    requires x !in p
    ensures RemoveAll(a + [x] + p, x) == RemoveAll(a, x) + p
  {
    var ra := RemoveAll(a, x);
    RemoveAllAppend(a + [x], p, x);
    assert RemoveAll(p, x) == p;
    RemoveAllAppend(a, [x], x);
    RemoveOne(x, x);
    assert RemoveAll(a + [x], x) == ra;
  }

  /** ... and keeps any other separator. */
  lemma KeepSeparator(a: string, sep: char, p: string, x: char)
    requires x !in p && sep != x
    ensures RemoveAll(a + [sep] + p, x) == RemoveAll(a, x) + [sep] + p
  {
    var ra := RemoveAll(a, x);
    RemoveAllAppend(a + [sep], p, x);
    assert RemoveAll(p, x) == p;
    RemoveAllAppend(a, [sep], x);
    RemoveOne(sep, x);
    assert RemoveAll(a + [sep], x) == ra + [sep];
  }

  lemma SliceJoin(s: string, i: nat, j: nat, k: nat)
    requires i <= j <= k <= |s|
    ensures s[i..j] + s[j..k] == s[i..k]
  {
  }

  lemma DigitsHaveNo(s: string, x: char)
    requires AllDigits(s) && !IsDigit(x)
    ensures x !in s
  {
  }

  /** One step of removing the dots: the digits up to `j` follow a removed separator. */
  lemma DropDotStep(d: string, s: string, i: nat, j: nat)
    requires i <= j <= |d| && AllDigits(d[i..j])
    requires RemoveAll(s, '.') == d[..i]
    ensures RemoveAll(s + ['.'] + d[i..j], '.') == d[..j]
  {
    DigitsHaveNo(d[i..j], '.');
    RemoveSeparator(s, d[i..j], '.');
    SliceJoin(d, 0, i, j);
    assert d[0..i] == d[..i] && d[0..j] == d[..j];
  }

  /** The formatted NPWP, piece by piece. */
  lemma NpwpPieces(d: string)
    requires |d| == 15 && AllDigits(d)
    ensures FormatNpwp(d) == d[..2] + ['.'] + d[2..5] + ['.'] + d[5..8] + ['.'] + d[8..9] + ['-'] + d[9..12] + ['.'] + d[12..]
  {
  }

  /** Removing the dots of a formatted NPWP leaves the digits with the one dash. */
  lemma NpwpDropDots(d: string)
    requires |d| == 15 && AllDigits(d)
    ensures RemoveAll(FormatNpwp(d), '.') == d[..9] + ['-'] + d[9..]
  {
    var s1 := d[..2];
    var s2 := s1 + ['.'] + d[2..5];
    var s3 := s2 + ['.'] + d[5..8];
    var s4 := s3 + ['.'] + d[8..9];
    NpwpPieces(d);
    DigitsHaveNo(s1, '.');
    DropDotStep(d, s1, 2, 5);
    DropDotStep(d, s2, 5, 8);
    DropDotStep(d, s3, 8, 9);
    NpwpTail(d, s4);
  }

  /** The last two groups: the dash is kept, the dot before the last group removed. */
  lemma NpwpTail(d: string, s: string)
    requires |d| == 15 && AllDigits(d)
    requires RemoveAll(s, '.') == d[..9]
    ensures RemoveAll(s + ['-'] + d[9..12] + ['.'] + d[12..], '.') == d[..9] + ['-'] + d[9..]
  {
    var s5 := s + ['-'] + d[9..12];
    DigitsHaveNo(d[9..12], '.');
    KeepSeparator(s, '-', d[9..12], '.');
    DigitsHaveNo(d[12..], '.');
    RemoveSeparator(s5, d[12..], '.');
    var t := d[..9] + ['-'];
    assert RemoveAll(s5 + ['.'] + d[12..], '.') == t + d[9..12] + d[12..];
    SliceJoin(d, 9, 12, 15);
    assert d[9..15] == d[9..];
    assert t + d[9..12] + d[12..] == t + d[9..];
  }

  /** Removing the dash then leaves the fifteen digits. */
  lemma NpwpDropDash(d: string)
    requires |d| == 15 && AllDigits(d)
    ensures RemoveAll(d[..9] + ['-'] + d[9..], '-') == d
  {
    DigitsHaveNo(d[..9], '-');
    DigitsHaveNo(d[9..], '-');
    RemoveSeparator(d[..9], d[9..], '-');
    assert d == d[..9] + d[9..];
  }

  /** Deleting the separators of a formatted NPWP gives the fifteen digits back. */
  lemma NpwpRoundTrip(npwp: string)
    requires |npwp| == 15 && AllDigits(npwp)
    ensures RemoveAll(RemoveAll(FormatNpwp(npwp), '.'), '-') == npwp
  {
    NpwpDropDots(npwp);
    NpwpDropDash(npwp);
  }

  // ---------------------------------------------------------------- options

  /** The JavaScript values an option's `value` or `label` may hold at run time. */
  datatype JsValue = JsUndefined | JsNull | JsBool(b: bool) | JsNumber(n: int) | JsString(s: string)

  /** An element of the options array: an object with `value` and `label` (here
      `caption`, as `label` is a Dafny keyword), or anything else (`null`,
      `undefined` or a primitive), which has neither. */
  datatype OptionItem = Item(value: JsValue, caption: JsValue) | NotAnObject

  /** The filter's test: a truthy object whose label is a string and whose value is
      a string, a number or `null`. */
  predicate WellFormed(o: OptionItem) {
    o.Item? && o.caption.JsString? && (o.value.JsString? || o.value.JsNumber? || o.value.JsNull?)
  }

  function KeepWellFormed(options: seq<OptionItem>): (r: seq<OptionItem>)
    ensures |r| <= |options|
    ensures forall o :: o in r <==> o in options && WellFormed(o)
    ensures (forall i :: 0 <= i < |options| ==> WellFormed(options[i])) ==> r == options
  {
    if options == [] then []
    else if WellFormed(options[0]) then [options[0]] + KeepWellFormed(options[1..])
    else KeepWellFormed(options[1..])
  }

  /** `sanitizeOptions`: `undefined` stays `undefined`; an array keeps its
      well-formed options. */
  function SanitizeOptions(options: Option<seq<OptionItem>>): (r: Option<seq<OptionItem>>)
    ensures options.None? <==> r.None?
    ensures r.Some? ==> forall o :: o in r.value ==> WellFormed(o)
  {
    if options.None? then None else Some(KeepWellFormed(options.value))
  }

  /** `a` is `b` with some elements left out, order kept. */
  predicate IsSubsequence<T(==)>(a: seq<T>, b: seq<T>)
    decreases |b|
  {
    a == [] || (b != [] && if a[0] == b[0] then IsSubsequence(a[1..], b[1..]) else IsSubsequence(a, b[1..]))
  }

  lemma {:induction false} KeepWellFormedIsSubsequence(options: seq<OptionItem>)
    ensures IsSubsequence(KeepWellFormed(options), options)
  {
    if options != [] {
      KeepWellFormedIsSubsequence(options[1..]);
      var r := KeepWellFormed(options);
      if WellFormed(options[0]) {
        assert r[0] == options[0] && r[1..] == KeepWellFormed(options[1..]);
      } else if r != [] {
        var o := r[0];
        assert o in KeepWellFormed(options[1..]);
        assert WellFormed(o);
        assert o != options[0];
      }
    }
  }

  /** Sanitising keeps the order of the options it keeps, and sanitising again
      changes nothing. */
  lemma SanitizeOptionsOrderAndIdempotence(options: Option<seq<OptionItem>>)
    ensures SanitizeOptions(options).Some? ==> IsSubsequence(SanitizeOptions(options).value, options.value)
    ensures SanitizeOptions(SanitizeOptions(options)) == SanitizeOptions(options)
  {
    if options.Some? {
      KeepWellFormedIsSubsequence(options.value);
      var r := KeepWellFormed(options.value);
      assert forall i :: 0 <= i < |r| ==> r[i] in r;
    }
  }

  // ---------------------------------------------------------------- separators

  /** The string step of `parseSeparator`: `value.replace(/\./g, '').replace(',', '.')`,
      which drops every thousands dot and turns only the first comma into a decimal
      point, before `Number()` reads it. The `k`-th character of the result comes from
      the `k`-th character of `value` that is not a dot; it is that character, except
      that the first comma of `value` becomes `.`. */
  function SeparatorText(value: string): (r: string)
    ensures |r| == |value| - CountChar(value, '.')
    ensures var kept := Query.Matching(value, NotChar('.'));
      var comma := Query.First(value, IsChar(','));
      |r| == |kept| && forall k :: 0 <= k < |r| ==>
        r[k] == if Some(kept[k]) == comma then '.' else value[kept[k]]
  {
    RemoveAllCount(value, '.');
    SeparatorSteps(value);
    ReplaceFirst(RemoveAll(value, '.'), ',', '.')
  }

  lemma SeparatorSteps(value: string)
    ensures var r := ReplaceFirst(RemoveAll(value, '.'), ',', '.');
      var kept := Query.Matching(value, NotChar('.'));
      var comma := Query.First(value, IsChar(','));
      |r| == |kept| && forall k :: 0 <= k < |r| ==>
        r[k] == if Some(kept[k]) == comma then '.' else value[kept[k]]
  {
    var t := RemoveAll(value, '.');
    RemoveAllKeepsOrder(value, '.');
    ReplaceFirstPointwise(t, ',', '.');
    SameFirstComma(value);
  }

  /** The first comma of `value` is the first comma left once the dots are gone. */
  lemma SameFirstComma(value: string)
    requires var kept := Query.Matching(value, NotChar('.')); var t := RemoveAll(value, '.');
      |t| == |kept| && forall k :: 0 <= k < |t| ==> t[k] == value[kept[k]]
    ensures var kept := Query.Matching(value, NotChar('.')); var t := RemoveAll(value, '.');
      forall k :: 0 <= k < |kept| ==>
        (Some(kept[k]) == Query.First(value, IsChar(',')) <==> Some(k) == Query.First(t, IsChar(',')))
  {
    var kept := Query.Matching(value, NotChar('.'));
    var t := RemoveAll(value, '.');
    var inT := Query.First(t, IsChar(','));
    if inT.Some? {
      FirstCommaKept(value, kept, t, inT.value);
    } else {
      NoCommaKept(value, kept, t);
    }
  }

  lemma FirstCommaKept(value: string, kept: seq<nat>, t: string, j: nat)
    requires kept == Query.Matching(value, NotChar('.'))
    requires |t| == |kept| && forall k :: 0 <= k < |t| ==> t[k] == value[kept[k]]
    requires Query.First(t, IsChar(',')) == Some(j)
    ensures Query.First(value, IsChar(',')) == Some(kept[j])
  {
    assert value[kept[j]] == ',';
    var inValue := Query.First(value, IsChar(','));
    assert inValue.Some?;
    var c := inValue.value;
    assert c <= kept[j];
    assert NotChar('.')(value[c]);
    var m :| 0 <= m < |kept| && kept[m] == c;
    assert m <= j;
    assert t[m] == ',';
    assert m == j;
  }

  lemma NoCommaKept(value: string, kept: seq<nat>, t: string)
    requires kept == Query.Matching(value, NotChar('.'))
    requires |t| == |kept| && forall k :: 0 <= k < |t| ==> t[k] == value[kept[k]]
    requires Query.First(t, IsChar(',')).None?
    ensures Query.First(value, IsChar(',')).None?
  {
    forall i | 0 <= i < |value| ensures value[i] != ',' {
      if value[i] != '.' {
        assert NotChar('.')(value[i]);
        var m :| 0 <= m < |kept| && kept[m] == i;
        assert value[i] == t[m];
      }
    }
  }

  lemma {:induction false} RemoveAllCount(s: string, x: char)
    ensures |RemoveAll(s, x)| == |s| - CountChar(s, x)
    ensures forall c :: c != x ==> CountChar(RemoveAll(s, x), c) == CountChar(s, c)
  {
    if s != [] {
      RemoveAllCount(s[1..], x);
      if s[0] != x {
        var t := RemoveAll(s[1..], x);
        assert ([s[0]] + t)[0] == s[0] && ([s[0]] + t)[1..] == t;
      }
    }
  }

  lemma {:induction false} ReplaceFirstCount(s: string, x: char, y: char)
    requires x != y
    ensures var r := ReplaceFirst(s, x, y);
      var hit := if CountChar(s, x) > 0 then 1 else 0;
      CountChar(r, x) == CountChar(s, x) - hit && CountChar(r, y) == CountChar(s, y) + hit
  {
    if s != [] {
      var r := ReplaceFirst(s, x, y);
      assert r[0] == (if s[0] == x then y else s[0]);
      if s[0] == x {
        assert r[1..] == s[1..];
      } else {
        ReplaceFirstCount(s[1..], x, y);
        assert r[1..] == ReplaceFirst(s[1..], x, y);
      }
    }
  }

  /** After the string step there is at most one `.`, present exactly when the input
      had a comma, and one comma fewer than the input had. */
  lemma SeparatorTextCounts(value: string)
    ensures var r := SeparatorText(value);
      var hit := if CountChar(value, ',') > 0 then 1 else 0;
      CountChar(r, '.') == hit && CountChar(r, ',') == CountChar(value, ',') - hit
  {
    var t := RemoveAll(value, '.');
    RemoveAllCount(value, '.');
    CountCharAbsent(t, '.');
    ReplaceFirstCount(t, ',', '.');
  }

  // ---------------------------------------------------------------- key filter

  /** The keys `restrictToNumericInput` lets through besides digits. */
  const AllowedKeys: seq<string> := [
    "ArrowUp", "ArrowDown", "ArrowLeft", "ArrowRight", "Backspace", "Delete", "Tab",
    "Enter", "Control", "Shift", "Alt", "c", "v", "C", "V"]

  /** `/^[0-9\b]+$/`: a non-empty run of digits and backspace characters (inside a
      character class `\b` is U+0008). */
  predicate OnlyNumber(key: string) {
    |key| >= 1 && forall i :: 0 <= i < |key| ==> IsDigit(key[i]) || key[i] == '\U{8}'
  }

  /** Whether the handler calls `e.preventDefault()` for a key. */
  function BlocksKey(key: string): (prevent: bool)
    ensures OnlyNumber(key) ==> !prevent
    ensures key in AllowedKeys ==> !prevent
    ensures prevent <==> !OnlyNumber(key) && key !in AllowedKeys
  {
    !OnlyNumber(key) && key !in AllowedKeys
  }

  /** A single digit is never blocked; any other single character is blocked unless it
      is one of the copy/paste letters. */
  lemma SingleCharacterKeys(c: char)
    ensures IsDigit(c) ==> !BlocksKey([c])
    ensures !IsDigit(c) && c != '\U{8}' && c !in "cvCV" ==> BlocksKey([c])
  {
    if !IsDigit(c) && c != '\U{8}' && c !in "cvCV" {
      assert [c][0] == c;
      assert [c] !in AllowedKeys;
    }
  }
}
