/**
 * The Ruby string operations the load shedder's line protocol relies on:
 * `strip`, awk-style `split(" ")`, `split(sep, 2)`, `Integer#to_s` and
 * `String#to_i`, written out over `seq<char>`.
 */
module Text {
  import opened Wrappers

  /** The separators of Ruby's awk-style `split(" ")`. */
  predicate IsSpace(c: char) {
    c == ' ' || c == '\t' || c == '\n' || c == '\U{000B}' || c == '\U{000C}' || c == '\r'
  }

  /** The characters `String#strip` removes at either end. */
  predicate IsStripped(c: char) {
    IsSpace(c) || c == '\0'
  }

  predicate IsDigit(c: char) {
    '0' <= c <= '9'
  }

  predicate SpaceFree(s: string) {
    forall i :: 0 <= i < |s| ==> !IsSpace(s[i])
  }

  predicate AllDigits(s: string) {
    forall i :: 0 <= i < |s| ==> IsDigit(s[i])
  }

  // ---------------------------------------------------------------------------
  // strip

  function TrimStart(s: string): (r: string)
    ensures |r| <= |s|
    ensures r == [] || !IsStripped(r[0])
    ensures forall i {:trigger IsStripped(s[i])} :: 0 <= i < |s| - |r| ==> IsStripped(s[i])
  {
    if s == [] || !IsStripped(s[0]) then s else TrimStart(s[1..])
  }

  function TrimEnd(s: string): (r: string)
    ensures |r| <= |s|
    ensures r == [] || !IsStripped(r[|r| - 1])
    ensures forall i {:trigger IsStripped(s[i])} :: |r| <= i < |s| ==> IsStripped(s[i])
  {
    if s == [] || !IsStripped(s[|s| - 1]) then s else TrimEnd(s[..|s| - 1])
  }

  /** What `TrimStart` keeps is a suffix of its input. */
  lemma {:induction false} TrimStartIsSuffix(s: string)
    ensures TrimStart(s) == s[|s| - |TrimStart(s)|..]
  {
    if s != [] && IsStripped(s[0]) {
      TrimStartIsSuffix(s[1..]);
    }
  }

  /** What `TrimEnd` keeps is a prefix of its input. */
  lemma {:induction false} TrimEndIsPrefix(s: string)
    ensures TrimEnd(s) == s[..|TrimEnd(s)|]
  {
    if s != [] && IsStripped(s[|s| - 1]) {
      TrimEndIsPrefix(s[..|s| - 1]);
    }
  }

  /** `String#strip`. */
  function Strip(s: string): (r: string)
    ensures r == [] || (!IsStripped(r[0]) && !IsStripped(r[|r| - 1]))
  {
    var t := TrimStart(s);
    TrimEndIsPrefix(t);
    TrimEnd(t)
  }

  /** Stripping a string that starts and ends with a kept character, followed
      by one newline, removes exactly that newline. */
  lemma StripNewline(s: string)
    requires s != [] && !IsStripped(s[0]) && !IsStripped(s[|s| - 1])
    ensures Strip(s + "\n") == s
  {
    var t := s + "\n";
    assert TrimStart(t) == t;
    TrimEndIsPrefix(t);
    assert t[..|t| - 1] == s;
  }

  // ---------------------------------------------------------------------------
  // awk-style split

  /** Drops leading separators. */
  function SkipSpaces(s: string): (r: string)
    ensures |r| <= |s|
    ensures r == [] || !IsSpace(r[0])
  {
    if s == [] || !IsSpace(s[0]) then s else SkipSpaces(s[1..])
  }

  /** Length of the longest separator-free prefix. */
  function SpanNonSpace(s: string): (n: nat)
    ensures n <= |s|
    ensures forall i {:trigger IsSpace(s[i])} :: 0 <= i < n ==> !IsSpace(s[i])
    ensures n == |s| || IsSpace(s[n])
  {
    if s == [] || IsSpace(s[0]) then 0 else 1 + SpanNonSpace(s[1..])
  }

  /** `s.split(" ")`: the maximal separator-free runs, in order. */
  function Fields(s: string): (fs: seq<string>)
    ensures forall k :: 0 <= k < |fs| ==> fs[k] != [] && SpaceFree(fs[k])
    decreases |s|
  {
    if s == [] then []
    else if IsSpace(s[0]) then Fields(s[1..])
    else
      var n := SpanNonSpace(s);
      [s[..n]] + Fields(s[n..])
  }

  lemma SpanOfSpaceFree(t: string, rest: string)
    requires SpaceFree(t)
    requires rest == [] || IsSpace(rest[0])
    ensures SpanNonSpace(t + rest) == |t|
    decreases |t|
  {
    if t != [] {
      assert (t + rest)[1..] == t[1..] + rest;
      SpanOfSpaceFree(t[1..], rest);
    }
  }

  /** A separator-free field followed by one space splits off as the first field. */
  lemma FieldsCons(t: string, rest: string)
    requires t != [] && SpaceFree(t)
    ensures Fields(t + " " + rest) == [t] + Fields(rest)
  {
    var s := t + " " + rest;
    SpanOfSpaceFree(t, " " + rest);
    assert s[..|t|] == t;
    assert s[|t|..] == " " + rest;
    assert (" " + rest)[1..] == rest;
  }

  lemma FieldsSingle(t: string)
    requires t != [] && SpaceFree(t)
    ensures Fields(t) == [t]
  {
    SpanOfSpaceFree(t, []);
    assert t + [] == t;
    assert t[|t|..] == [];
  }

  /** `s.split(" ", 2)`: the first field and, when anything follows it, the rest
      after the run of separators behind that field. */
  function SplitCommand(s: string): (r: (Option<string>, Option<string>))
    ensures r.0.None? ==> r.1.None?
    ensures r.0.Some? ==> r.0.value != [] && SpaceFree(r.0.value)
  {
    var t := SkipSpaces(s);
    if t == [] then (None, None)
    else
      var n := SpanNonSpace(t);
      if n == |t| then (Some(t), None) else (Some(t[..n]), Some(SkipSpaces(t[n..])))
  }

  /** A separator-free word, one space and a rest that does not start with a
      separator split into that word and that rest. */
  lemma SplitCommandCons(w: string, rest: string)
    requires w != [] && SpaceFree(w)
    requires rest == [] || !IsSpace(rest[0])
    ensures SplitCommand(w + " " + rest) == (Some(w), Some(rest))
  {
    var s := w + " " + rest;
    assert SkipSpaces(s) == s;
    SpanOfSpaceFree(w, " " + rest);
    assert s[..|w|] == w;
    assert s[|w|..] == " " + rest;
    assert (" " + rest)[1..] == rest;
    assert SkipSpaces(rest) == rest;
    assert SkipSpaces(" " + rest) == rest;
  }

  /** A separator-free word alone is a command with no rest. */
  lemma SplitCommandSingle(w: string)
    requires w != [] && SpaceFree(w)
    ensures SplitCommand(w) == (Some(w), None)
  {
    assert SkipSpaces(w) == w;
    SpanOfSpaceFree(w, []);
    assert w + [] == w;
  }

  // ---------------------------------------------------------------------------
  // split(sep, 2)

  /** Index of the first occurrence of `c` in `s`. */
  function IndexOf(s: string, c: char): (r: Option<nat>)
    ensures r.Some? ==> r.value < |s| && s[r.value] == c && c !in s[..r.value]
    ensures r.None? ==> c !in s
  {
    if s == [] then None
    else if s[0] == c then Some(0)
    else
      match IndexOf(s[1..], c)
      case None => None
      case Some(i) => assert s[..i + 1] == [s[0]] + s[1..][..i]; Some(i + 1)
  }

  /** `s.split(c, 2)` when it yields two parts: around the first `c`; `None` when
      `c` does not occur (the split then yields one part). */
  function SplitOnce(s: string, c: char): (r: Option<(string, string)>)
    ensures r.None? <==> c !in s
    ensures r.Some? ==> s == r.value.0 + [c] + r.value.1 && c !in r.value.0
  {
    match IndexOf(s, c)
    case None => None
    case Some(i) =>
      assert s == s[..i] + [c] + s[i + 1..];
      Some((s[..i], s[i + 1..]))
  }

  lemma {:induction false} IndexOfAfter(a: string, c: char, b: string)
    requires c !in a
    ensures IndexOf(a + [c] + b, c) == Some(|a|)
    decreases |a|
  {
    if a != [] {
      assert (a + [c] + b)[1..] == a[1..] + [c] + b;
      IndexOfAfter(a[1..], c, b);
    }
  }

  /** Splitting at the first separator recovers the parts it was joined from. */
  lemma SplitOnceJoin(a: string, c: char, b: string)
    requires c !in a
    ensures SplitOnce(a + [c] + b, c) == Some((a, b))
  {
    IndexOfAfter(a, c, b);
    var s := a + [c] + b;
    assert s[..|a|] == a;
    assert s[|a| + 1..] == b;
  }

  /** Every part holds a `=`, so every part names a key. */
  predicate AllPairs(parts: seq<string>) {
    forall k :: 0 <= k < |parts| ==> '=' in parts[k]
  }

  /** `parts.to_h { |part| part.split("=", 2) }`: each part split at its first
      `=`, a later key overriding an earlier one; a part without `=` makes
      `to_h` raise, `None` here. */
  function KeyValues(parts: seq<string>): (r: Option<map<string, string>>)
    ensures r.Some? <==> AllPairs(parts)
    decreases |parts|
  {
    if parts == [] then Some(map[])
    else
      var init := parts[..|parts| - 1];
      match KeyValues(init)
      case None =>
        assert '=' !in parts[|parts| - 1] || exists k :: 0 <= k < |init| && '=' !in parts[k] by {
          var k :| 0 <= k < |init| && '=' !in init[k];
          assert init[k] == parts[k];
        }
        None
      case Some(m) =>
        match SplitOnce(parts[|parts| - 1], '=')
        case None => None
        case Some((k, v)) =>
          assert forall j :: 0 <= j < |parts| - 1 ==> parts[j] == init[j];
          Some(m[k := v])
  }

  /** The key a part defines. */
  function KeyOf(part: string): Option<string> {
    match SplitOnce(part, '=')
    case None => None
    case Some((k, _)) => Some(k)
  }

  /** A key maps to the value of the LAST part that defines it. */
  lemma {:induction false} KeyValuesLast(parts: seq<string>, i: int, key: string, value: string)
    requires KeyValues(parts).Some?
    requires 0 <= i < |parts| && SplitOnce(parts[i], '=') == Some((key, value))
    requires forall j :: i < j < |parts| ==> KeyOf(parts[j]) != Some(key)
    ensures key in KeyValues(parts).value && KeyValues(parts).value[key] == value
    decreases |parts|
  {
    var init := parts[..|parts| - 1];
    if i < |parts| - 1 {
      KeyValuesLast(init, i, key, value);
    }
  }

  /** A key no part defines is absent. */
  lemma {:induction false} KeyValuesAbsent(parts: seq<string>, key: string)
    requires KeyValues(parts).Some?
    requires forall j :: 0 <= j < |parts| ==> KeyOf(parts[j]) != Some(key)
    ensures key !in KeyValues(parts).value
    decreases |parts|
  {
    if parts != [] {
      KeyValuesAbsent(parts[..|parts| - 1], key);
    }
  }

  // ---------------------------------------------------------------------------
  // numbers

  function DigitValue(c: char): (d: nat)
    requires IsDigit(c)
    ensures d < 10
  {
    (c as int - '0' as int) as nat
  }

  function DigitChar(d: nat): (c: char)
    requires d < 10
    ensures IsDigit(c) && DigitValue(c) == d
  {
    ('0' as int + d) as char
  }

  /** Length of the longest digit prefix. */
  function SpanDigits(s: string): (n: nat)
    ensures n <= |s| && AllDigits(s[..n])
    ensures n == |s| || !IsDigit(s[n])
  {
    if s == [] || !IsDigit(s[0]) then 0
    else
      var n := 1 + SpanDigits(s[1..]);
      assert s[..n] == [s[0]] + s[1..][..n - 1];
      n
  }

  function DigitsValue(ds: string): nat
    requires AllDigits(ds)
  {
    if ds == [] then 0 else DigitsValue(ds[..|ds| - 1]) * 10 + DigitValue(ds[|ds| - 1])
  }

  function Magnitude(s: string): nat {
    var n := SpanDigits(s);
    DigitsValue(s[..n])
  }

  /** A string of digits alone is read whole. */
  lemma DigitsRead(s: string)
    ensures AllDigits(s) ==> SkipSpaces(s) == s && Magnitude(s) == DigitsValue(s)
  {
    if AllDigits(s) {
      var n := SpanDigits(s);
      assert n == |s|;
      assert s[..n] == s;
    }
  }

  /** `String#to_i`: leading separators skipped, an optional sign, then the digit
      prefix; no digits gives 0. */
  function ToI(s: string): (r: int)
    ensures AllDigits(s) ==> r == DigitsValue(s)
    ensures s != [] && !IsSpace(s[0]) && !IsDigit(s[0]) && s[0] != '-' && s[0] != '+' ==> r == 0
  {
    DigitsRead(s);
    var t := SkipSpaces(s);
    if t != [] && t[0] == '-' then -(Magnitude(t[1..]) as int)
    else if t != [] && t[0] == '+' then Magnitude(t[1..])
    else Magnitude(t)
  }

  /** Decimal digits of a natural number, without leading zeros. */
  function NatToString(n: nat): (s: string)
    ensures s != [] && AllDigits(s)
    ensures s[0] != '0' || n == 0
  {
    if n < 10 then [DigitChar(n)] else NatToString(n / 10) + [DigitChar(n % 10)]
  }

  /** `Integer#to_s`. */
  function IntToString(n: int): (s: string)
    ensures s != [] && SpaceFree(s) && '=' !in s
    ensures IsDigit(s[|s| - 1])
  {
    if n < 0 then "-" + NatToString(-n) else NatToString(n)
  }

  lemma {:induction false} DigitsOfNat(n: nat)
    ensures DigitsValue(NatToString(n)) == n
  {
    if n >= 10 {
      var s := NatToString(n);
      assert s[..|s| - 1] == NatToString(n / 10);
      DigitsOfNat(n / 10);
    }
  }

  lemma MagnitudeOfDigits(ds: string)
    requires AllDigits(ds)
    ensures Magnitude(ds) == DigitsValue(ds)
  {
    assert ds[..|ds|] == ds;
  }

  /** `n.to_s.to_i == n` for every integer. */
  lemma {:induction false} ToIOfIntToString(n: int)
    ensures ToI(IntToString(n)) == n
  {
    var s := IntToString(n);
    assert SkipSpaces(s) == s;
    if n < 0 {
      assert s[1..] == NatToString(-n);
      MagnitudeOfDigits(NatToString(-n));
      DigitsOfNat(-n);
    } else {
      MagnitudeOfDigits(s);
      DigitsOfNat(n);
    }
  }

  // ---------------------------------------------------------------------------
  // case and substrings

  function LowerChar(c: char): char {
    if 'A' <= c <= 'Z' then (c as int + 32) as char else c
  }

  /** Lower-casing, on ASCII letters. */
  function Lower(s: string): (r: string)
    ensures |r| == |s|
    ensures forall i :: 0 <= i < |s| ==> r[i] == LowerChar(s[i])
  {
    if s == [] then [] else [LowerChar(s[0])] + Lower(s[1..])
  }

  predicate StartsWith(s: string, p: string) {
    |p| <= |s| && s[..|p|] == p
  }

  predicate OccursAt(s: string, p: string, i: int) {
    0 <= i && i + |p| <= |s| && s[i..i + |p|] == p
  }

  /** `p` occurs in `s` (the empty string occurs everywhere). */
  predicate Contains(s: string, p: string) {
    exists i | 0 <= i <= |s| - |p| :: OccursAt(s, p, i)
  }
}
