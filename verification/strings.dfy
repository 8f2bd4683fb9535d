/**
 String operations the pipeline borrows from Python: `str.split(sep)` and `sep.join(...)`,
 `str(n)` for integers, zero-padded decimal rendering (`strftime`'s `%Y`, `%m`, `%d`), and
 the lexicographic order of `<` / `>` on strings.
 */
module Strings {

  // ---------------------------------------------------------------------------
  // split / join

  /** Position of the first `c` in `s`. */
  function IndexOf(s: string, c: char): (i: nat)
    requires c in s
    ensures i < |s| && s[i] == c && c !in s[..i]
  {
    if s[0] == c then 0 else
      var j := IndexOf(s[1..], c);
      assert s[1..][..j] == s[1..j + 1];
      1 + j
  }

  /** `s.split(sep)`: the pieces between separators, empty pieces included. */
  function Split(s: string, sep: char): (parts: seq<string>)
    ensures |parts| >= 1
    ensures forall i :: 0 <= i < |parts| ==> sep !in parts[i]
    decreases |s|
  {
    if sep !in s then [s] else
      var i := IndexOf(s, sep);
      [s[..i]] + Split(s[i + 1..], sep)
  }

  /** `sep.join(parts)` */
  function Join(parts: seq<string>, sep: string): string
  {
    if |parts| == 0 then ""
    else if |parts| == 1 then parts[0]
    else parts[0] + sep + Join(parts[1..], sep)
  }

  /** Joining the pieces of a split with the same separator gives back the string. */
  lemma {:induction false} JoinSplit(s: string, sep: char)
    ensures Join(Split(s, sep), [sep]) == s
    decreases |s|
  {
    if sep in s {
      var i := IndexOf(s, sep);
      var rest := Split(s[i + 1..], sep);
      assert Split(s, sep) == [s[..i]] + rest;
      JoinCons(s[..i], rest, [sep]);
      JoinSplit(s[i + 1..], sep);
      assert s == s[..i] + [sep] + s[i + 1..];
    }
  }

  lemma JoinCons(a: string, rest: seq<string>, sep: string)
    requires |rest| >= 1
    ensures Join([a] + rest, sep) == a + sep + Join(rest, sep)
  {
    assert ([a] + rest)[1..] == rest;
  }

  /** Splitting a join of separator-free pieces gives back the pieces. */
  lemma {:induction false} SplitJoin(parts: seq<string>, sep: char)
    requires |parts| >= 1
    requires forall i :: 0 <= i < |parts| ==> sep !in parts[i]
    ensures Split(Join(parts, [sep]), sep) == parts
    decreases |parts|
  {
    if |parts| > 1 {
      var rest := Join(parts[1..], [sep]);
      var s := parts[0] + [sep] + rest;
      assert s[|parts[0]|] == sep;
      assert sep in s;
      SeparatorFreePrefix(parts[0], sep, rest);
      assert s[|parts[0]| + 1..] == rest;
      SplitJoin(parts[1..], sep);
    } else {
      assert Join(parts, [sep]) == parts[0];
    }
  }

  lemma SeparatorFreePrefix(a: string, sep: char, b: string)
    requires sep !in a
    ensures IndexOf(a + [sep] + b, sep) == |a|
    ensures (a + [sep] + b)[..|a|] == a
  {
    var s := a + [sep] + b;
    assert s[..|a|] == a;
    IndexOfFirst(s, sep, |a|);
  }

  /** The first occurrence is the one IndexOf finds. */
  lemma {:induction false} IndexOfFirst(s: string, c: char, k: nat)
    requires k < |s| && s[k] == c && c !in s[..k]
    ensures IndexOf(s, c) == k
    decreases k
  {
    if k > 0 {
      assert s[0] == s[..k][0];
      assert s[1..][..k - 1] == s[1..k];
      assert s[1..k] == s[..k][1..];
      IndexOfFirst(s[1..], c, k - 1);
    }
  }

  // ---------------------------------------------------------------------------
  // decimal digits

  predicate IsDigit(c: char) {
    '0' <= c <= '9'
  }

  predicate AllDigits(s: string) {
    forall i :: 0 <= i < |s| ==> IsDigit(s[i])
  }

  function DigitChar(d: int): (c: char)
    requires 0 <= d < 10
    ensures IsDigit(c)
  {
    ('0' as int + d) as char
  }

  function DigitValue(c: char): (d: nat)
    requires IsDigit(c)
    ensures d < 10 && DigitChar(d) == c
  {
    c as int - '0' as int
  }

  /** The number a string of decimal digits denotes. */
  function DigitsValue(s: string): nat
    requires AllDigits(s)
  {
    if |s| == 0 then 0 else DigitsValue(s[..|s| - 1]) * 10 + DigitValue(s[|s| - 1])
  }

  /** `str(n)` for a natural number: its decimal digits, without leading zeros. */
  function NatToString(n: nat): (r: string)
    ensures |r| > 0 && AllDigits(r)
    ensures |r| > 1 ==> r[0] != '0'
    decreases n
  {
    if n < 10 then [DigitChar(n)] else NatToString(n / 10) + [DigitChar(n % 10)]
  }

  /** The decimal rendering reads back as the number it renders. */
  lemma {:induction false} NatToStringValue(n: nat)
    ensures DigitsValue(NatToString(n)) == n
    decreases n
  {
    if n >= 10 {
      NatToStringValue(n / 10);
      var r := NatToString(n);
      assert r[..|r| - 1] == NatToString(n / 10);
    }
  }

  /** `str(i)` for a Python int. */
  function IntToString(i: int): (r: string)
    ensures |r| > 0
    ensures i >= 0 ==> AllDigits(r)
    ensures i < 0 ==> r[0] == '-' && AllDigits(r[1..])
  {
    if i < 0 then "-" + NatToString(-i) else NatToString(i)
  }

  function Pow10(w: nat): (p: nat)
    ensures p >= 1
  {
    if w == 0 then 1 else 10 * Pow10(w - 1)
  }

  /** `n` written with exactly `w` decimal digits, zero-padded on the left (`%04d`, `%02d`). */
  function Pad(n: nat, w: nat): (r: string)
    requires n < Pow10(w)
    ensures |r| == w && AllDigits(r)
    decreases w
  {
    if w == 0 then "" else Pad(n / 10, w - 1) + [DigitChar(n % 10)]
  }

  /** Padded digits read back as the number they render. */
  lemma {:induction false} PadValue(n: nat, w: nat)
    requires n < Pow10(w)
    ensures DigitsValue(Pad(n, w)) == n
    decreases w
  {
    if w > 0 {
      PadValue(n / 10, w - 1);
      var r := Pad(n, w);
      assert r[..|r| - 1] == Pad(n / 10, w - 1);
    }
  }

  // ---------------------------------------------------------------------------
  // Python's order on strings

  /** `a < b` on Python strings: lexicographic by code point, a proper prefix being smaller. */
  predicate StrLess(a: string, b: string)
    decreases |a|
  {
    if |a| == 0 then |b| > 0
    else if |b| == 0 then false
    else if a[0] != b[0] then a[0] < b[0]
    else StrLess(a[1..], b[1..])
  }

  lemma {:induction false} StrLessIrreflexive(a: string)
    ensures !StrLess(a, a)
    decreases |a|
  {
    if |a| > 0 {
      StrLessIrreflexive(a[1..]);
    }
  }

  lemma {:induction false} StrLessTransitive(a: string, b: string, c: string)
    requires StrLess(a, b) && StrLess(b, c)
    ensures StrLess(a, c)
    decreases |a|
  {
    if |a| > 0 && a[0] == b[0] && b[0] == c[0] {
      StrLessTransitive(a[1..], b[1..], c[1..]);
    }
  }

  lemma {:induction false} StrLessTotal(a: string, b: string)
    requires a != b
    ensures StrLess(a, b) || StrLess(b, a)
    decreases |a|
  {
    if |a| > 0 && |b| > 0 && a[0] == b[0] {
      assert a == [a[0]] + a[1..];
      assert b == [b[0]] + b[1..];
      StrLessTotal(a[1..], b[1..]);
    }
  }

  lemma {:induction false} StrLessAsymmetric(a: string, b: string)
    requires StrLess(a, b)
    ensures !StrLess(b, a)
  {
    if StrLess(b, a) {
      StrLessTransitive(a, b, a);
      StrLessIrreflexive(a);
    }
  }

  /** Comparing equal-length strings extended by one character each. */
  lemma {:induction false} StrLessSnoc(a: string, x: char, b: string, y: char)
    requires |a| == |b|
    ensures StrLess(a + [x], b + [y]) <==> (StrLess(a, b) || (a == b && x < y))
    decreases |a|
  {
    if |a| == 0 {
      assert a == b;
    } else {
      assert (a + [x])[1..] == a[1..] + [x];
      assert (b + [y])[1..] == b[1..] + [y];
      StrLessSnoc(a[1..], x, b[1..], y);
      if a[0] == b[0] && a[1..] == b[1..] {
        assert a == [a[0]] + a[1..] && b == [b[0]] + b[1..];
      }
    }
  }

  /** Comparing equal-length strings extended by arbitrary suffixes. */
  lemma {:induction false} StrLessAppend(a: string, x: string, b: string, y: string)
    requires |a| == |b|
    ensures StrLess(a + x, b + y) <==> (StrLess(a, b) || (a == b && StrLess(x, y)))
    decreases |a|
  {
    if |a| == 0 {
      assert a + x == x && b + y == y;
    } else {
      assert (a + x)[1..] == a[1..] + x;
      assert (b + y)[1..] == b[1..] + y;
      StrLessAppend(a[1..], x, b[1..], y);
      if a[0] == b[0] && a[1..] == b[1..] {
        assert a == [a[0]] + a[1..] && b == [b[0]] + b[1..];
      }
    }
  }

  /** On zero-padded numbers of one width, string order is numeric order. */
  lemma {:induction false} PadOrder(n: nat, m: nat, w: nat)
    requires n < Pow10(w) && m < Pow10(w)
    ensures StrLess(Pad(n, w), Pad(m, w)) <==> n < m
    decreases w
  {
    if w == 0 {
    } else {
      PadOrder(n / 10, m / 10, w - 1);
      StrLessSnoc(Pad(n / 10, w - 1), DigitChar(n % 10), Pad(m / 10, w - 1), DigitChar(m % 10));
      PadInjective(n / 10, m / 10, w - 1);
    }
  }

  lemma {:induction false} PadInjective(n: nat, m: nat, w: nat)
    requires n < Pow10(w) && m < Pow10(w)
    ensures Pad(n, w) == Pad(m, w) <==> n == m
  {
    if Pad(n, w) == Pad(m, w) {
      PadValue(n, w);
      PadValue(m, w);
    }
  }
}
