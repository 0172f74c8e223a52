/**
 * The JavaScript string operations the pages rely on: `split`, `padStart`, `<` on strings,
 * `toLowerCase`, `trim`, `includes`, and conversions between numbers and decimal strings.
 * A Dafny `char` is a Unicode scalar value, not a UTF-16 code unit, so lengths, padding,
 * splitting and `<` differ from JavaScript on characters outside the Basic Multilingual Plane
 * (a JavaScript string holds two code units for each of them). Only the parts of each library
 * routine that the pages exercise are modelled (see the README).
 */
module Strings {
  import opened Wrappers

  /** JavaScript truthiness of an optional string: present and not empty. */
  predicate Truthy(o: Option<string>) {
    o.Some? && o.value != ""
  }

  // ---------------------------------------------------------------- split / join

  /** `s.split(sep)` for a one-character separator. */
  function Split(s: string, sep: char): (parts: seq<string>)
    ensures |parts| >= 1
  {
    if s == [] then [""]
    else
      var rest := Split(s[1..], sep);
      if s[0] == sep then [""] + rest
      else [[s[0]] + rest[0]] + rest[1..]
  }

  /** `parts.join(sep)`. */
  function Join(parts: seq<string>, sep: char): string
    requires |parts| >= 1
  {
    if |parts| == 1 then parts[0] else parts[0] + [sep] + Join(parts[1..], sep)
  }

  /** No piece of a split holds the separator. */
  lemma {:induction false} SplitPiecesFree(s: string, sep: char)
    ensures forall i :: 0 <= i < |Split(s, sep)| ==> sep !in Split(s, sep)[i]
  {
    if s != [] {
      SplitPiecesFree(s[1..], sep);
      var rest := Split(s[1..], sep);
      if s[0] != sep {
        var parts := [[s[0]] + rest[0]] + rest[1..];
        assert Split(s, sep) == parts;
        forall i | 0 <= i < |parts| ensures sep !in parts[i] {
          if i > 0 {
            assert parts[i] == rest[i];
          }
        }
      }
    }
  }

  /** Joining the pieces of a split gives back the original string. */
  lemma {:induction false} JoinSplit(s: string, sep: char)
    ensures Join(Split(s, sep), sep) == s
  {
    if s != [] {
      JoinSplit(s[1..], sep);
      var rest := Split(s[1..], sep);
      if s[0] == sep {
        assert ([""] + rest)[1..] == rest;
      } else {
        var parts := [[s[0]] + rest[0]] + rest[1..];
        if |rest| > 1 {
          assert parts[1..] == rest[1..];
          assert Join(rest, sep) == rest[0] + [sep] + Join(rest[1..], sep);
        }
      }
    }
  }

  lemma {:induction false} SplitOfPlain(p: string, sep: char)
    requires sep !in p
    ensures Split(p, sep) == [p]
  {
    if p != [] {
      SplitOfPlain(p[1..], sep);
      assert [p[0]] + p[1..] == p;
    }
  }

  lemma {:induction false} SplitOfCons(p: string, sep: char, t: string)
    requires sep !in p
    ensures Split(p + [sep] + t, sep) == [p] + Split(t, sep)
  {
    if p == [] {
      assert p + [sep] + t == [sep] + t;
      assert ([sep] + t)[1..] == t;
    } else {
      SplitOfCons(p[1..], sep, t);
      assert (p + [sep] + t)[1..] == p[1..] + [sep] + t;
      assert [p[0]] + p[1..] == p;
    }
  }

  /** Splitting a join of separator-free pieces gives back the pieces. */
  lemma {:induction false} SplitJoin(parts: seq<string>, sep: char)
    requires |parts| >= 1
    requires forall i :: 0 <= i < |parts| ==> sep !in parts[i]
    ensures Split(Join(parts, sep), sep) == parts
  {
    if |parts| == 1 {
      SplitOfPlain(parts[0], sep);
    } else {
      SplitJoin(parts[1..], sep);
      SplitOfCons(parts[0], sep, Join(parts[1..], sep));
      assert parts == [parts[0]] + parts[1..];
    }
  }

  // ---------------------------------------------------------------- padding

  /** `p.padStart(2, '0')`: a string shorter than two gets zeros in front, a longer one is kept. */
  function PadStart2(p: string): (r: string)
    ensures |r| == if |p| >= 2 then |p| else 2
  {
    if |p| >= 2 then p else if |p| == 1 then "0" + p else "00"
  }

  /** Padding keeps the string as a suffix and puts only zeros in front of it. */
  lemma PadStart2Shape(p: string)
    ensures var r := PadStart2(p);
            && r[|r| - |p|..] == p
            && forall i :: 0 <= i < |r| - |p| ==> r[i] == '0'
  {
  }

  // ---------------------------------------------------------------- comparison

  /** JavaScript `a < b` on strings: lexicographic by code unit, a proper prefix being smaller. */
  predicate StrLess(a: string, b: string) {
    if b == [] then false
    else if a == [] then true
    else if a[0] != b[0] then a[0] < b[0]
    else StrLess(a[1..], b[1..])
  }

  lemma {:induction false} StrLessIrreflexive(a: string)
    ensures !StrLess(a, a)
  {
    if a != [] {
      StrLessIrreflexive(a[1..]);
    }
  }

  lemma {:induction false} StrLessTransitive(a: string, b: string, c: string)
    requires StrLess(a, b) && StrLess(b, c)
    ensures StrLess(a, c)
  {
    if a != [] && a[0] == b[0] && b[0] == c[0] {
      StrLessTransitive(a[1..], b[1..], c[1..]);
    }
  }

  /** Of two different strings, one is smaller. */
  lemma {:induction false} StrLessTotal(a: string, b: string)
    requires a != b
    ensures StrLess(a, b) || StrLess(b, a)
  {
    if a != [] && b != [] && a[0] == b[0] {
      assert a == [a[0]] + a[1..] && b == [b[0]] + b[1..];
      StrLessTotal(a[1..], b[1..]);
    }
  }

  /** Strings made of an equal-length head and a tail compare by head first, then by tail. */
  lemma {:induction false} StrLessConcat(x: string, y: string, x': string, y': string)
    requires |x| == |x'|
    ensures StrLess(x + y, x' + y') <==> StrLess(x, x') || (x == x' && StrLess(y, y'))
  {
    if x == [] {
      assert x + y == y && x' + y' == y';
    } else {
      assert (x + y)[0] == x[0] && (x' + y')[0] == x'[0];
      assert (x + y)[1..] == x[1..] + y && (x' + y')[1..] == x'[1..] + y';
      StrLessConcat(x[1..], y, x'[1..], y');
      if x[0] == x'[0] {
        assert x == x' <==> x[1..] == x'[1..] by {
          assert x == [x[0]] + x[1..] && x' == [x'[0]] + x'[1..];
        }
      } else {
        assert x != x';
      }
    }
  }

  // ---------------------------------------------------------------- case and blanks

  /** `toLowerCase` on one code unit, for the ASCII letters only. */
  function LowerChar(c: char): char {
    if 'A' <= c <= 'Z' then ((c as int) + 32) as char else c
  }

  /** `toLowerCase`, ASCII letters only. */
  function LowerAscii(s: string): (r: string)
    ensures |r| == |s|
  {
    seq(|s|, i requires 0 <= i < |s| => LowerChar(s[i]))
  }

  /**
   * The characters `trim` removes: ECMAScript's white space (tab, vertical tab, form feed, the
   * byte-order mark and every space separator) and its line terminators.
   */
  predicate IsBlank(c: char) {
    c == '\t' || c == '\U{B}' || c == '\U{C}' || c == '\U{FEFF}'
    || c == ' ' || c == '\U{A0}' || c == '\U{1680}' || ('\U{2000}' <= c <= '\U{200A}')
    || c == '\U{202F}' || c == '\U{205F}' || c == '\U{3000}'
    || c == '\n' || c == '\r' || c == '\U{2028}' || c == '\U{2029}'
  }

  function TrimStart(s: string): (r: string)
    ensures r == [] || !IsBlank(r[0])
    ensures |r| <= |s| && r == s[|s| - |r|..]
  {
    if s != [] && IsBlank(s[0]) then TrimStart(s[1..]) else s
  }

  function TrimEnd(s: string): (r: string)
    ensures r == [] || !IsBlank(r[|r| - 1])
    ensures r <= s
  {
    if s != [] && IsBlank(s[|s| - 1]) then TrimEnd(s[..|s| - 1]) else s
  }

  /** `s.trim()`. */
  function Trim(s: string): string {
    TrimEnd(TrimStart(s))
  }

  /** A string of ideographic spaces and line separators trims to nothing. */
  lemma TrimWideBlanks()
    ensures Trim("\U{3000}\U{2028}\U{3000}") == ""
  {
    var s := "\U{3000}\U{2028}\U{3000}";
    assert IsBlank(s[0]) && s[1..] == "\U{2028}\U{3000}";
    assert TrimStart(s[1..][1..]) == "";
  }

  /** `hay.includes(needle)`. */
  predicate Contains(hay: string, needle: string) {
    needle <= hay || (hay != [] && Contains(hay[1..], needle))
  }

  // ---------------------------------------------------------------- numbers

  predicate IsDigit(c: char) {
    '0' <= c <= '9'
  }

  predicate AllDigits(s: string) {
    forall i :: 0 <= i < |s| ==> IsDigit(s[i])
  }

  function DigitChar(d: nat): (c: char)
    requires d < 10
    ensures IsDigit(c)
  {
    (('0' as int) + d) as char
  }

  /** The number a string of decimal digits denotes (0 for the empty string). */
  function DigitsValue(s: string): nat
    requires AllDigits(s)
  {
    if s == [] then 0 else DigitsValue(s[..|s| - 1]) * 10 + ((s[|s| - 1] as int) - ('0' as int))
  }

  /** `n.toString()` for a non-negative integer. */
  function NatToString(n: nat): (s: string)
    ensures |s| >= 1
    ensures |s| == 1 <==> n < 10
  {
    if n < 10 then [DigitChar(n)]
    else NatToString(n / 10) + [DigitChar(n % 10)]
  }

  /** The decimal rendering of `n` is all digits and reads back as `n`. */
  lemma {:induction false} NatToStringValue(n: nat)
    ensures AllDigits(NatToString(n)) && DigitsValue(NatToString(n)) == n
    ensures NumberOf(NatToString(n)) == Some(n)
  {
    if n >= 10 {
      NatToStringValue(n / 10);
      var h := NatToString(n / 10);
      var s := h + [DigitChar(n % 10)];
      assert s[..|s| - 1] == h;
    }
  }

  /** `n.toString()` for an integer. */
  function IntToString(n: int): string {
    if n < 0 then "-" + NatToString(-n) else NatToString(n)
  }

  /** `Number(s)` on strings of decimal digits; any other string gives NaN (`None`). */
  function NumberOf(s: string): Option<nat> {
    if AllDigits(s) then Some(DigitsValue(s)) else None
  }

  /** The length of the run of digits at the start of `s`. */
  function LeadingDigits(s: string): (k: nat)
    ensures k <= |s| && AllDigits(s[..k])
    ensures k < |s| ==> !IsDigit(s[k])
  {
    if s == [] || !IsDigit(s[0]) then 0
    else
      var k := 1 + LeadingDigits(s[1..]);
      assert s[..k] == [s[0]] + s[1..][..k - 1];
      k
  }

  /** `parseInt(s, 10)`: the value of the leading digits, NaN (`None`) when there are none. */
  function ParseInt(s: string): Option<nat> {
    var k := LeadingDigits(s);
    if k == 0 then None else Some(DigitsValue(s[..k]))
  }

  /** Two-digit rendering used for clock fields: `n.toString().padStart(2, '0')`. */
  function TwoDigit(n: nat): string {
    PadStart2(NatToString(n))
  }

  lemma TwoDigitChars(n: nat)
    requires n < 100
    ensures TwoDigit(n) == [DigitChar(n / 10), DigitChar(n % 10)]
  {
    if n < 10 {
      assert n / 10 == 0 && n % 10 == n;
      assert NatToString(n) == [DigitChar(n)];
      assert DigitChar(0) == '0';
    } else {
      var q := n / 10;
      assert q < 10;
      assert NatToString(q) == [DigitChar(q)];
      assert NatToString(n) == [DigitChar(q)] + [DigitChar(n % 10)];
    }
  }

  lemma TwoDigitZero()
    ensures TwoDigit(0) == "00"
  {
    assert NatToString(0) == [DigitChar(0)];
    assert NatToString(0) == "0";
  }

  /** A two-digit field is two digits, so it holds no separator. */
  lemma TwoDigitShape(n: nat)
    requires n < 100
    ensures |TwoDigit(n)| == 2 && AllDigits(TwoDigit(n)) && ':' !in TwoDigit(n)
  {
    TwoDigitChars(n);
  }

  lemma TwoDigitValue(n: nat)
    requires n < 100
    ensures AllDigits(TwoDigit(n)) && DigitsValue(TwoDigit(n)) == n
    ensures Split(TwoDigit(n), ':') == [TwoDigit(n)]
    ensures NumberOf(TwoDigit(n)) == Some(n) && ParseInt(TwoDigit(n)) == Some(n)
  {
    var s := TwoDigit(n);
    assert s == [DigitChar(n / 10), DigitChar(n % 10)] && AllDigits(s) by {
      TwoDigitChars(n);
    }
    assert DigitsValue(s) == n by {
      var d1, d2 := DigitChar(n / 10), DigitChar(n % 10);
      assert (d1 as int) - ('0' as int) == n / 10 && (d2 as int) - ('0' as int) == n % 10;
      assert s[..1] == [d1] && [d1][..0] == [];
      assert DigitsValue([d1]) == n / 10;
      assert DigitsValue(s) == DigitsValue(s[..1]) * 10 + n % 10;
    }
    assert Split(s, ':') == [s] by {
      TwoDigitShape(n);
      SplitOfPlain(s, ':');
    }
    assert ParseInt(s) == Some(n) by {
      assert LeadingDigits(s[1..]) == 1;
      assert LeadingDigits(s) == 2;
      assert s[..2] == s;
    }
  }

  /** A zero-padded `HH:mm` clock reading. */
  function HourMinute(h: nat, m: nat): string {
    TwoDigit(h) + ":" + TwoDigit(m)
  }

  /** A zero-padded `HH:mm:ss` clock reading. */
  function HourMinuteSecond(h: nat, m: nat, s: nat): string {
    TwoDigit(h) + ":" + TwoDigit(m) + ":" + TwoDigit(s)
  }

  lemma SplitHourMinute(h: nat, m: nat)
    requires h < 100 && m < 100
    ensures Split(HourMinute(h, m), ':') == [TwoDigit(h), TwoDigit(m)]
  {
    var a, b := TwoDigit(h), TwoDigit(m);
    TwoDigitShape(h);
    TwoDigitShape(m);
    assert HourMinute(h, m) == a + [':'] + b;
    SplitOfCons(a, ':', b);
    SplitOfPlain(b, ':');
  }

  lemma SplitHourMinuteSecond(h: nat, m: nat, s: nat)
    requires h < 100 && m < 100 && s < 100
    ensures Split(HourMinuteSecond(h, m, s), ':') == [TwoDigit(h), TwoDigit(m), TwoDigit(s)]
  {
    var a, b, c := TwoDigit(h), TwoDigit(m), TwoDigit(s);
    TwoDigitShape(h);
    TwoDigitShape(m);
    TwoDigitShape(s);
    assert HourMinuteSecond(h, m, s) == a + [':'] + (b + [':'] + c);
    SplitOfCons(a, ':', b + [':'] + c);
    SplitOfCons(b, ':', c);
    SplitOfPlain(c, ':');
  }

  /**
   * `const [h, m] = hm.split(':').map(Number)` followed by `h * 60 + m`: `None` (NaN) when a
   * field is missing or not a decimal number; fields after the second are ignored.
   */
  function ClockMinutes(hm: string): Option<nat> {
    var parts := Split(hm, ':');
    if |parts| < 2 then None
    else
      match (NumberOf(parts[0]), NumberOf(parts[1]))
      case (Some(h), Some(m)) => Some(h * 60 + m)
      case _ => None
  }

  /** A zero-padded `HH:mm` reading is read back as `h * 60 + m`. */
  lemma ClockMinutesOf(h: nat, m: nat)
    requires h < 100 && m < 100
    ensures ClockMinutes(HourMinute(h, m)) == Some(h * 60 + m)
  {
    SplitHourMinute(h, m);
    TwoDigitValue(h);
    TwoDigitValue(m);
  }

  lemma DivModOrder(a: nat, b: nat)
    requires a < 100 && b < 100
    ensures a < b <==> a / 10 < b / 10 || (a / 10 == b / 10 && a % 10 < b % 10)
    ensures a == b <==> a / 10 == b / 10 && a % 10 == b % 10
  {
    assert a == 10 * (a / 10) + a % 10;
    assert b == 10 * (b / 10) + b % 10;
  }

  lemma StrLessPair(c1: char, c2: char, d1: char, d2: char)
    ensures StrLess([c1, c2], [d1, d2]) <==> c1 < d1 || (c1 == d1 && c2 < d2)
  {
    assert StrLess([c2], [d2]) <==> c2 < d2 by {
      assert [c2][1..] == [] && [d2][1..] == [];
      assert !StrLess([], []);
    }
    assert [c1, c2][1..] == [c2] && [d1, d2][1..] == [d2];
  }

  lemma DigitCharOrder(x: nat, y: nat)
    requires x < 10 && y < 10
    ensures DigitChar(x) < DigitChar(y) <==> x < y
    ensures DigitChar(x) == DigitChar(y) <==> x == y
  {
  }

  /** Two-digit fields compare as strings exactly as they compare as numbers. */
  lemma TwoDigitLess(a: nat, b: nat)
    requires a < 100 && b < 100
    ensures StrLess(TwoDigit(a), TwoDigit(b)) <==> a < b
    ensures TwoDigit(a) == TwoDigit(b) <==> a == b
  {
    var a1, a2, b1, b2 := a / 10, a % 10, b / 10, b % 10;
    assert TwoDigit(a) == [DigitChar(a1), DigitChar(a2)] && TwoDigit(b) == [DigitChar(b1), DigitChar(b2)] by {
      TwoDigitChars(a);
      TwoDigitChars(b);
    }
    StrLessPair(DigitChar(a1), DigitChar(a2), DigitChar(b1), DigitChar(b2));
    DigitCharOrder(a1, b1);
    DigitCharOrder(a2, b2);
    DivModOrder(a, b);
  }

  /**
   * On zero-padded `HH:mm` readings with minutes below 60, the string order is the order of
   * `h * 60 + m`.
   */
  lemma HourMinuteLess(h1: nat, m1: nat, h2: nat, m2: nat)
    requires h1 < 100 && m1 < 60 && h2 < 100 && m2 < 60
    ensures StrLess(HourMinute(h1, m1), HourMinute(h2, m2)) <==> h1 * 60 + m1 < h2 * 60 + m2
  {
    var a1, b1, a2, b2 := TwoDigit(h1), TwoDigit(m1), TwoDigit(h2), TwoDigit(m2);
    TwoDigitShape(h1);
    TwoDigitShape(h2);
    assert HourMinute(h1, m1) == a1 + (":" + b1);
    assert HourMinute(h2, m2) == a2 + (":" + b2);
    StrLessConcat(a1, ":" + b1, a2, ":" + b2);
    StrLessConcat(":", b1, ":", b2);
    StrLessIrreflexive(":");
    TwoDigitLess(h1, h2);
    TwoDigitLess(m1, m2);
  }
}
