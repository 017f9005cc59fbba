/**
 * The few pieces of Go's `strings` and `strconv` packages that the collector and the
 * rule generator rely on: splitting on and joining with a one-character separator,
 * replacing one character by another, lexicographic comparison (Go's `<` on strings)
 * and the decimal rendering of a non-negative integer (`strconv.Itoa`).
 */
module Strings {

  /** Number of occurrences of `c` in `s`. */
  function Count(s: string, c: char): nat
  {
    if s == [] then 0 else (if s[0] == c then 1 else 0) + Count(s[1..], c)
  }

  /**
   * `strings.Split(s, string(sep))`: the pieces between separators. There is always one
   * piece more than there are separators, and no piece contains the separator.
   */
  function Split(s: string, sep: char): (parts: seq<string>)
    ensures |parts| == 1 + Count(s, sep)
    ensures forall i :: 0 <= i < |parts| ==> sep !in parts[i]
  {
    if s == [] then [""]
    else
      var rest := Split(s[1..], sep);
      if s[0] == sep then [""] + rest
      else [[s[0]] + rest[0]] + rest[1..]
  }

  /** `strings.Join(parts, string(sep))`; the empty list joins to "". */
  function Join(parts: seq<string>, sep: char): string
  {
    if parts == [] then ""
    else if |parts| == 1 then parts[0]
    else parts[0] + [sep] + Join(parts[1..], sep)
  }

  /** Joining the pieces of a split gives back the original string. */
  lemma {:induction false} JoinSplit(s: string, sep: char)
    ensures Join(Split(s, sep), sep) == s
  {
    if s != [] {
      var rest := Split(s[1..], sep);
      JoinSplit(s[1..], sep);
      if s[0] == sep {
        assert Split(s, sep) == [""] + rest;
        assert s == [s[0]] + s[1..];
      } else {
        var parts := Split(s, sep);
        assert parts == [[s[0]] + rest[0]] + rest[1..];
        if |rest| == 1 {
          assert s == [s[0]] + rest[0];
        } else {
          assert Join(rest, sep) == rest[0] + [sep] + Join(rest[1..], sep);
          assert parts[1..] == rest[1..];
          assert s == [s[0]] + s[1..];
        }
      }
    }
  }

  /** Splitting `x + t` where `x` holds no separator glues `x` onto the first piece of `t`. */
  lemma {:induction false} SplitPrefix(x: string, t: string, sep: char)
    requires sep !in x
    ensures Split(x + t, sep) == [x + Split(t, sep)[0]] + Split(t, sep)[1..]
  {
    if x != [] {
      SplitPrefix(x[1..], t, sep);
      assert (x + t)[1..] == x[1..] + t;
      assert (x + t)[0] == x[0];
      assert [x[0]] + (x[1..] + Split(t, sep)[0]) == x + Split(t, sep)[0];
    } else {
      var st := Split(t, sep);
      assert x + t == t;
      assert x + st[0] == st[0];
      assert st == [st[0]] + st[1..];
    }
  }

  /** Splitting a join of separator-free pieces gives back the pieces. */
  lemma {:induction false} SplitJoin(parts: seq<string>, sep: char)
    requires |parts| >= 1
    requires forall i :: 0 <= i < |parts| ==> sep !in parts[i]
    ensures Split(Join(parts, sep), sep) == parts
  {
    if |parts| == 1 {
      SplitPrefix(parts[0], "", sep);
      assert parts[0] + "" == parts[0];
    } else {
      var tail := Join(parts[1..], sep);
      SplitJoin(parts[1..], sep);
      assert Join(parts, sep) == parts[0] + ([sep] + tail);
      SplitPrefix(parts[0], [sep] + tail, sep);
      assert ([sep] + tail)[1..] == tail;
      assert Split([sep] + tail, sep) == [""] + parts[1..];
      assert parts[0] + "" == parts[0];
    }
  }

  /** Joining two non-empty lists puts one separator between their joins. */
  lemma {:induction false} JoinAppend(a: seq<string>, b: seq<string>, sep: char)
    requires |a| >= 1 && |b| >= 1
    ensures Join(a + b, sep) == Join(a, sep) + [sep] + Join(b, sep)
  {
    if |a| == 1 {
      assert (a + b)[1..] == b;
    } else {
      JoinAppend(a[1..], b, sep);
      assert (a + b)[1..] == a[1..] + b;
      assert (a + b)[0] == a[0];
    }
  }

  /** `strings.ReplaceAll(s, string(from), string(to))` for one-character arguments. */
  function ReplaceChar(s: string, from: char, to: char): (r: string)
    ensures |r| == |s|
    ensures forall i :: 0 <= i < |s| ==> r[i] == (if s[i] == from then to else s[i])
  {
    if s == [] then [] else [if s[0] == from then to else s[0]] + ReplaceChar(s[1..], from, to)
  }

  /** Replacing the separator of a join by another character joins with that character instead. */
  lemma {:induction false} ReplaceJoin(parts: seq<string>, from: char, to: char)
    requires forall i :: 0 <= i < |parts| ==> from !in parts[i]
    ensures ReplaceChar(Join(parts, from), from, to) == Join(parts, to)
  {
    if |parts| == 1 {
      assert ReplaceChar(parts[0], from, to) == parts[0];
    } else if |parts| > 1 {
      ReplaceJoin(parts[1..], from, to);
      var a, t := parts[0], Join(parts[1..], from);
      var s := a + [from] + t;
      var r := ReplaceChar(s, from, to);
      var e := a + [to] + ReplaceChar(t, from, to);
      forall i | 0 <= i < |r| ensures r[i] == e[i] {
        if i < |a| {
          assert s[i] == a[i];
        } else if i > |a| {
          assert s[i] == t[i - |a| - 1];
        }
      }
      assert r == e;
    }
  }

  /** ASCII lower-casing of one character. */
  function LowerChar(c: char): char
  {
    if 'A' <= c <= 'Z' then (c as int - 'A' as int + 'a' as int) as char else c
  }

  /** `strings.ToLower`, restricted to ASCII letters. */
  function ToLower(s: string): (r: string)
    ensures |r| == |s|
    ensures forall i :: 0 <= i < |s| ==> r[i] == LowerChar(s[i])
  {
    if s == [] then [] else [LowerChar(s[0])] + ToLower(s[1..])
  }

  predicate HasSuffix(s: string, suffix: string)
  {
    |suffix| <= |s| && s[|s| - |suffix|..] == suffix
  }

  /** Go's `a <= b` on strings: byte order of UTF-8, which is code-point order. */
  predicate LexLe(a: string, b: string)
  {
    if a == [] then true
    else if b == [] then false
    else if a[0] != b[0] then a[0] < b[0]
    else LexLe(a[1..], b[1..])
  }

  lemma {:induction false} LexLeTotal(a: string, b: string)
    ensures LexLe(a, b) || LexLe(b, a)
  {
    if a != [] && b != [] && a[0] == b[0] {
      LexLeTotal(a[1..], b[1..]);
    }
  }

  lemma {:induction false} LexLeTransitive(a: string, b: string, c: string)
    requires LexLe(a, b) && LexLe(b, c)
    ensures LexLe(a, c)
  {
    if a != [] && b != [] && c != [] && a[0] == b[0] && b[0] == c[0] {
      LexLeTransitive(a[1..], b[1..], c[1..]);
    }
  }

  lemma {:induction false} LexLeAntisymmetric(a: string, b: string)
    requires LexLe(a, b) && LexLe(b, a)
    ensures a == b
  {
    if a != [] && b != [] {
      LexLeAntisymmetric(a[1..], b[1..]);
      assert a == [a[0]] + a[1..] && b == [b[0]] + b[1..];
    }
  }

  function DigitChar(d: nat): char
    requires d < 10
  {
    ('0' as int + d) as char
  }

  predicate IsDigit(c: char)
  {
    '0' <= c <= '9'
  }

  /** `strconv.Itoa` for a non-negative integer: at least one digit, no leading zero. */
  function NatToString(n: nat): (r: string)
    ensures |r| >= 1
    ensures forall i :: 0 <= i < |r| ==> IsDigit(r[i])
    ensures r[0] == '0' ==> n == 0
  {
    if n < 10 then [DigitChar(n)] else NatToString(n / 10) + [DigitChar(n % 10)]
  }

  /** The number a string of decimal digits denotes (the inverse of NatToString). */
  function DigitsValue(s: string): nat
    requires forall i :: 0 <= i < |s| ==> IsDigit(s[i])
  {
    if s == [] then 0
    else
      var last := s[|s| - 1];
      assert IsDigit(last);
      10 * DigitsValue(s[..|s| - 1]) + (last as int - '0' as int)
  }

  lemma {:induction false} NatToStringRoundTrip(n: nat)
    ensures DigitsValue(NatToString(n)) == n
  {
    if n >= 10 {
      NatToStringRoundTrip(n / 10);
      var r := NatToString(n);
      assert r[..|r| - 1] == NatToString(n / 10);
    }
  }

  /** Distinct indices are rendered as distinct label values. */
  lemma NatToStringInjective(m: nat, n: nat)
    requires NatToString(m) == NatToString(n)
    ensures m == n
  {
    NatToStringRoundTrip(m);
    NatToStringRoundTrip(n);
  }
}
