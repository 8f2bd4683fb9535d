/**
 Whitespace handling shared by the extractor and the normaliser: Python's `str.strip()`,
 the substitution `re.sub(r'\s+', ' ', ...)`, and the text normalisation built from them
 (data_transformer.py:326-334 and data_cleaner.py:82-86 are the same function).

 Whitespace is Python's `str.isspace` set, which is also what `\s` matches in a `str`
 pattern.
 */
module Text {

  /**
   Python `str.isspace()` restricted to ASCII: tab, line feed, vertical tab, form feed,
   carriage return, the four information separators 0x1C-0x1F, and the space.
   */
  predicate IsSpace(c: char) {
    0x09 <= c as int <= 0x0D || 0x1C <= c as int <= 0x20
  }

  /** Printable ASCII other than the space is not whitespace. */
  lemma PrintableIsNotSpace(c: char)
    requires 0x21 <= c as int <= 0x7E
    ensures !IsSpace(c)
  {
  }

  lemma SpaceIsSpace()
    ensures IsSpace(' ')
  {
  }

  predicate AllSpace(s: string) {
    forall i :: 0 <= i < |s| ==> IsSpace(s[i])
  }

  predicate NoSpace(s: string) {
    forall i :: 0 <= i < |s| ==> !IsSpace(s[i])
  }

  /** `s.lstrip()`: the suffix left after dropping every leading whitespace character. */
  function StripLeft(s: string): (r: string)
    ensures |r| <= |s| && r == s[|s| - |r|..]
    ensures AllSpace(s[..|s| - |r|])
    ensures |r| > 0 ==> !IsSpace(r[0])
  {
    if |s| > 0 && IsSpace(s[0]) then StripLeft(s[1..]) else s
  }

  /** `s.rstrip()`: the prefix left after dropping every trailing whitespace character. */
  function StripRight(s: string): (r: string)
    ensures |r| <= |s| && r == s[..|r|]
    ensures AllSpace(s[|r|..])
    ensures |r| > 0 ==> !IsSpace(r[|r| - 1])
  {
    if |s| > 0 && IsSpace(s[|s| - 1]) then StripRight(s[..|s| - 1]) else s
  }

  /** `s.strip()` */
  function Strip(s: string): (r: string)
    ensures |r| <= |s|
    ensures |r| > 0 ==> !IsSpace(r[0]) && !IsSpace(r[|r| - 1])
  {
    StripRight(StripLeft(s))
  }

  /** Length of the longest whitespace-free prefix of `s`. */
  function WordLen(s: string): (n: nat)
    ensures n <= |s|
    ensures NoSpace(s[..n])
    ensures n < |s| ==> IsSpace(s[n])
  {
    if |s| == 0 || IsSpace(s[0]) then 0 else 1 + WordLen(s[1..])
  }

  /** `re.sub(r'\s+', ' ', s)`: every maximal run of whitespace becomes one space. */
  function Collapse(s: string): string
    decreases |s|
  {
    if |s| == 0 then ""
    else if IsSpace(s[0]) then
      var rest := StripLeft(s);
      " " + Collapse(rest)
    else
      var n := WordLen(s);
      s[..n] + Collapse(s[n..])
  }

  /**
   The shape of the substitution's result `r` on `s`: whitespace only as single spaces,
   and a leading (trailing) space exactly when `s` starts (ends) with whitespace.
   */
  ghost predicate CollapsedFrom(s: string, r: string) {
    && (|r| == 0 <==> |s| == 0)
    && SingleSpaced(r)
    && (|s| > 0 ==> (IsSpace(r[0]) <==> IsSpace(s[0])))
    && (|s| > 0 ==> (IsSpace(r[|r| - 1]) <==> IsSpace(s[|s| - 1])))
  }

  lemma {:induction false} CollapseShape(s: string)
    ensures CollapsedFrom(s, Collapse(s))
    decreases |s|
  {
    if |s| == 0 {
    } else if IsSpace(s[0]) {
      CollapseShape(StripLeft(s));
      CollapseShapeSpace(s);
    } else {
      CollapseShape(s[WordLen(s)..]);
      CollapseShapeWord(s);
    }
  }

  lemma CollapseShapeSpace(s: string)
    requires |s| > 0 && IsSpace(s[0])
    requires CollapsedFrom(StripLeft(s), Collapse(StripLeft(s)))
    ensures CollapsedFrom(s, Collapse(s))
  {
    var rest := StripLeft(s);
    var c := Collapse(rest);
    CollapseSpaceUnfold(s);
    SingleSpacedSpaceThen(c);
    if |rest| == 0 {
      assert AllSpace(s) by {
        assert s[..|s|] == s;
      }
    } else {
      assert (" " + c)[|c|] == c[|c| - 1];
      assert s[|s| - 1] == rest[|rest| - 1];
    }
  }

  lemma CollapseSpaceUnfold(s: string)
    requires |s| > 0 && IsSpace(s[0])
    ensures Collapse(s) == " " + Collapse(StripLeft(s))
  {
  }

  lemma CollapseWordUnfold(s: string)
    requires |s| > 0 && !IsSpace(s[0])
    ensures Collapse(s) == s[..WordLen(s)] + Collapse(s[WordLen(s)..])
  {
  }

  lemma SingleSpacedSpaceThen(c: string)
    requires SingleSpaced(c)
    requires |c| > 0 ==> !IsSpace(c[0])
    ensures SingleSpaced(" " + c)
  {
    var r := " " + c;
    forall i, j | 0 <= i < |r| && j == i + 1 && j < |r|
      ensures !(IsSpace(r[i]) && IsSpace(r[j]))
    {
      if i > 0 {
        assert r[i] == c[i - 1] && r[j] == c[j - 1];
      } else {
        assert r[j] == c[0];
      }
    }
    forall i | 0 <= i < |r| && IsSpace(r[i])
      ensures r[i] == ' '
    {
      if i > 0 {
        assert r[i] == c[i - 1];
      }
    }
  }

  lemma SingleSpacedWordThen(w: string, c: string)
    requires NoSpace(w) && SingleSpaced(c)
    ensures SingleSpaced(w + c)
  {
    var r := w + c;
    var n := |w|;
    assert forall i :: 0 <= i < n ==> r[i] == w[i];
    assert forall i :: n <= i < |r| ==> r[i] == c[i - n];
    forall i, j | 0 <= i < |r| && j == i + 1 && j < |r|
      ensures !(IsSpace(r[i]) && IsSpace(r[j]))
    {
      if i >= n {
        assert r[j] == c[j - n];
      }
    }
  }

  lemma CollapseShapeWord(s: string)
    requires |s| > 0 && !IsSpace(s[0])
    requires CollapsedFrom(s[WordLen(s)..], Collapse(s[WordLen(s)..]))
    ensures CollapsedFrom(s, Collapse(s))
  {
    CollapseWordSingleSpaced(s);
    CollapseWordEnds(s);
  }

  lemma CollapseWordSingleSpaced(s: string)
    requires |s| > 0 && !IsSpace(s[0])
    requires CollapsedFrom(s[WordLen(s)..], Collapse(s[WordLen(s)..]))
    ensures SingleSpaced(Collapse(s))
  {
    var n := WordLen(s);
    CollapseWordUnfold(s);
    SingleSpacedWordThen(s[..n], Collapse(s[n..]));
  }

  lemma CollapseWordEnds(s: string)
    requires |s| > 0 && !IsSpace(s[0])
    requires CollapsedFrom(s[WordLen(s)..], Collapse(s[WordLen(s)..]))
    ensures |Collapse(s)| > 0 && Collapse(s)[0] == s[0]
    ensures IsSpace(Collapse(s)[|Collapse(s)| - 1]) <==> IsSpace(s[|s| - 1])
  {
    var n := WordLen(s);
    CollapseWordUnfold(s);
    ConcatEnds(s[..n], Collapse(s[n..]));
    SplitEnds(s, n);
  }

  /** The first and last characters of a concatenation with a non-empty left part. */
  lemma ConcatEnds(w: string, c: string)
    requires |w| > 0
    ensures |w + c| > 0 && (w + c)[0] == w[0]
    ensures (w + c)[|w + c| - 1] == if |c| > 0 then c[|c| - 1] else w[|w| - 1]
  {
  }

  /** The first and last characters of the two parts of a split. */
  lemma SplitEnds(s: string, n: nat)
    requires 0 < n <= |s|
    ensures s[..n][0] == s[0]
    ensures n < |s| ==> s[n..][|s| - n - 1] == s[|s| - 1]
    ensures n == |s| ==> s[..n][n - 1] == s[|s| - 1]
  {
  }

  /** Every whitespace character is a plain space, and no two whitespace characters are adjacent. */
  predicate SingleSpaced(s: string) {
    && (forall i :: 0 <= i < |s| && IsSpace(s[i]) ==> s[i] == ' ')
    && (forall i, j {:trigger s[i], s[j]} :: 0 <= i < |s| && j == i + 1 && j < |s| ==> !(IsSpace(s[i]) && IsSpace(s[j])))
  }

  /**
   The shape of normalised text: no leading or trailing whitespace, no two consecutive
   whitespace characters, and no whitespace other than plain spaces.
   */
  predicate Normalized(s: string) {
    && (|s| > 0 ==> !IsSpace(s[0]) && !IsSpace(s[|s| - 1]))
    && SingleSpaced(s)
  }

  /** The whitespace-separated words of `s`, as Python's `s.split()` returns them. */
  function Words(s: string): seq<string>
    decreases |s|
  {
    var t := StripLeft(s);
    if |t| == 0 then [] else
      var n := WordLen(t);
      [t[..n]] + Words(t[n..])
  }

  /**
   `re.sub(r'\s+', ' ', s.strip())` on a string: the result is normalised and keeps
   the words of `s` in order, so it is `" ".join(s.split())`.
   */
  function NormalizeString(s: string): (r: string)
    ensures Normalized(r)
    ensures Words(r) == Words(s)
  {
    var t := Strip(s);
    WordsOfStrip(s);
    WordsOfCollapse(t);
    CollapseShape(t);
    Collapse(t)
  }

  lemma {:induction false} WordsOfStripLeft(s: string)
    ensures Words(StripLeft(s)) == Words(s)
  {
    StripLeftIdempotent(s);
  }

  lemma {:induction false} StripLeftIdempotent(s: string)
    ensures StripLeft(StripLeft(s)) == StripLeft(s)
  {
    var t := StripLeft(s);
    if |t| > 0 {
      assert !IsSpace(t[0]);
    }
  }

  /** StripLeft over a concatenation whose left part is not all whitespace. */
  lemma {:induction false} StripLeftAppend(a: string, b: string)
    requires |StripLeft(a)| > 0
    ensures StripLeft(a + b) == StripLeft(a) + b
    decreases |a|
  {
    if |a| > 0 && IsSpace(a[0]) {
      assert (a + b)[1..] == a[1..] + b;
      StripLeftAppend(a[1..], b);
    }
  }

  lemma {:induction false} StripLeftAllSpace(a: string)
    requires AllSpace(a)
    ensures StripLeft(a) == ""
    decreases |a|
  {
    if |a| > 0 {
      StripLeftAllSpace(a[1..]);
    }
  }

  lemma {:induction false} WordLenAppend(a: string, b: string)
    requires WordLen(a) < |a| || |b| == 0 || IsSpace(b[0])
    ensures WordLen(a + b) == WordLen(a)
    decreases |a|
  {
    if |a| == 0 {
      assert a + b == b;
    } else if !IsSpace(a[0]) {
      assert (a + b)[1..] == a[1..] + b;
      WordLenAppend(a[1..], b);
    }
  }

  /** Trailing whitespace after a blank string leaves no words. */
  lemma WordsAppendSpacesBlank(s: string, sp: string)
    requires AllSpace(sp) && |StripLeft(s)| == 0
    ensures Words(s + sp) == [] && Words(s) == []
  {
    assert AllSpace(s) by {
      assert s[..|s|] == s;
    }
    assert AllSpace(s + sp);
    StripLeftAllSpace(s + sp);
  }

  /** Trailing whitespace after a non-blank string stays behind its first word. */
  lemma WordsAppendSpacesStep(s: string, sp: string)
    requires AllSpace(sp) && |StripLeft(s)| > 0
    ensures var t := StripLeft(s);
      Words(s + sp) == [t[..WordLen(t)]] + Words(t[WordLen(t)..] + sp)
  {
    var t := StripLeft(s);
    var n := WordLen(t);
    StripLeftAppend(s, sp);
    WordLenAppendSpaces(t, sp);
    AppendSlices(t, sp, n);
    WordsUnfold(s + sp, t + sp, n);
  }

  lemma WordLenAppendSpaces(t: string, sp: string)
    requires AllSpace(sp)
    ensures WordLen(t + sp) == WordLen(t)
  {
    assert WordLen(t) == |t| ==> |sp| == 0 || IsSpace(sp[0]);
    WordLenAppend(t, sp);
  }

  lemma AppendSlices(t: string, sp: string, n: nat)
    requires n <= |t|
    ensures (t + sp)[..n] == t[..n] && (t + sp)[n..] == t[n..] + sp
  {
  }

  /** One step of `Words`: the first word of the stripped string, then the words of the rest. */
  lemma WordsUnfold(x: string, t: string, n: nat)
    requires StripLeft(x) == t && |t| > 0 && WordLen(t) == n
    ensures Words(x) == [t[..n]] + Words(t[n..])
  {
  }

  /** Trailing whitespace does not change the words. */
  lemma {:induction false} WordsAppendSpaces(s: string, sp: string)
    requires AllSpace(sp)
    ensures Words(s + sp) == Words(s)
    decreases |s|
  {
    var t := StripLeft(s);
    if |t| == 0 {
      WordsAppendSpacesBlank(s, sp);
    } else {
      var n := WordLen(t);
      WordsAppendSpacesStep(s, sp);
      WordsAppendSpaces(t[n..], sp);
    }
  }

  lemma {:induction false} WordsOfStrip(s: string)
    ensures Words(Strip(s)) == Words(s)
  {
    var l := StripLeft(s);
    var r := StripRight(l);
    assert l == r + l[|r|..];
    WordsAppendSpaces(r, l[|r|..]);
    WordsOfStripLeft(s);
  }

  /** A non-empty whitespace-free word followed by nothing or by whitespace is the first word. */
  lemma {:induction false} WordsOfWordThen(w: string, x: string)
    requires |w| > 0 && NoSpace(w)
    requires |x| == 0 || IsSpace(x[0])
    ensures Words(w + x) == [w] + Words(x)
  {
    assert StripLeft(w + x) == w + x;
    WordLenNoSpace(w);
    WordLenAppend(w, x);
    assert (w + x)[..|w|] == w;
    assert (w + x)[|w|..] == x;
  }

  lemma {:induction false} WordLenNoSpace(w: string)
    requires NoSpace(w)
    ensures WordLen(w) == |w|
    decreases |w|
  {
    if |w| > 0 {
      WordLenNoSpace(w[1..]);
    }
  }

  lemma {:induction false} WordsOfSpaceThen(x: string)
    ensures Words(" " + x) == Words(x)
  {
    SpaceIsSpace();
    assert (" " + x)[1..] == x;
    assert StripLeft(" " + x) == StripLeft(x);
  }

  lemma {:induction false} WordsOfCollapse(s: string)
    ensures Words(Collapse(s)) == Words(s)
    decreases |s|
  {
    if |s| == 0 {
    } else if IsSpace(s[0]) {
      var rest := StripLeft(s);
      assert Collapse(s) == " " + Collapse(rest);
      WordsOfSpaceThen(Collapse(rest));
      WordsOfCollapse(rest);
      WordsOfStripLeft(s);
    } else {
      var n := WordLen(s);
      var w, tail := s[..n], s[n..];
      assert w + tail == s;
      assert Collapse(s) == w + Collapse(tail);
      CollapseShape(tail);
      WordsOfWordThen(w, Collapse(tail));
      WordsOfWordThen(w, tail);
      WordsOfCollapse(tail);
    }
  }

  lemma SingleSpacedSuffix(s: string, k: nat)
    requires SingleSpaced(s) && k <= |s|
    ensures SingleSpaced(s[k..])
  {
    var t := s[k..];
    forall i, j | 0 <= i < |t| && j == i + 1 && j < |t|
      ensures !(IsSpace(t[i]) && IsSpace(t[j]))
    {
      assert t[i] == s[k + i] && t[j] == s[k + j];
    }
  }

  lemma CollapseSpaceStep(s: string)
    requires |s| > 0 && IsSpace(s[0])
    requires |s| > 1 ==> !IsSpace(s[1])
    ensures Collapse(s) == " " + Collapse(s[1..])
  {
    assert StripLeft(s) == StripLeft(s[1..]);
    assert StripLeft(s[1..]) == s[1..];
  }

  lemma CollapseWordStep(s: string)
    requires |s| > 0 && !IsSpace(s[0])
    ensures Collapse(s) == s[..WordLen(s)] + Collapse(s[WordLen(s)..])
  {
  }

  /** A single-spaced string is left unchanged by the whitespace substitution. */
  lemma {:induction false} CollapseSingleSpaced(s: string)
    requires SingleSpaced(s)
    ensures Collapse(s) == s
    decreases |s|
  {
    if |s| == 0 {
    } else if IsSpace(s[0]) {
      SingleSpacedSuffix(s, 1);
      CollapseSingleSpaced(s[1..]);
      CollapseSingleSpacedSpace(s);
    } else {
      var n := WordLen(s);
      SingleSpacedSuffix(s, n);
      CollapseSingleSpaced(s[n..]);
      CollapseSingleSpacedWord(s);
    }
  }

  lemma CollapseSingleSpacedSpace(s: string)
    requires SingleSpaced(s) && |s| > 0 && IsSpace(s[0])
    requires Collapse(s[1..]) == s[1..]
    ensures Collapse(s) == s
  {
    assert s[0] == ' ';
    if |s| > 1 {
      assert !(IsSpace(s[0]) && IsSpace(s[1]));
    }
    CollapseSpaceStep(s);
    assert s == " " + s[1..];
  }

  lemma CollapseSingleSpacedWord(s: string)
    requires |s| > 0 && !IsSpace(s[0])
    requires Collapse(s[WordLen(s)..]) == s[WordLen(s)..]
    ensures Collapse(s) == s
  {
    var n := WordLen(s);
    CollapseWordStep(s);
    TakeDrop(s, n);
  }

  lemma TakeDrop(s: string, n: nat)
    requires n <= |s|
    ensures s[..n] + s[n..] == s
  {
  }

  /** Normalised text is a fixed point of the normalisation, so normalising twice is normalising once. */
  lemma {:induction false} NormalizeStringFixpoint(s: string)
    requires Normalized(s)
    ensures NormalizeString(s) == s
  {
    assert StripLeft(s) == s;
    if |s| > 0 {
      assert !IsSpace(s[|s| - 1]);
    }
    assert StripRight(s) == s;
    CollapseSingleSpaced(s);
  }

  lemma NormalizeStringIdempotent(s: string)
    ensures NormalizeString(NormalizeString(s)) == NormalizeString(s)
  {
    NormalizeStringFixpoint(NormalizeString(s));
  }

  // ---------------------------------------------------------------------------
  // ASCII case mapping (`str.upper()` / `str.lower()` restricted to ASCII letters)

  function UpperChar(c: char): char {
    if 'a' <= c <= 'z' then (c as int - 32) as char else c
  }

  function LowerChar(c: char): char {
    if 'A' <= c <= 'Z' then (c as int + 32) as char else c
  }

  function Upper(s: string): (r: string)
    ensures |r| == |s| && forall i :: 0 <= i < |s| ==> r[i] == UpperChar(s[i])
  {
    seq(|s|, i requires 0 <= i < |s| => UpperChar(s[i]))
  }

  function Lower(s: string): (r: string)
    ensures |r| == |s| && forall i :: 0 <= i < |s| ==> r[i] == LowerChar(s[i])
  {
    seq(|s|, i requires 0 <= i < |s| => LowerChar(s[i]))
  }

  predicate HasNoLower(s: string) {
    forall i :: 0 <= i < |s| ==> !('a' <= s[i] <= 'z')
  }

  predicate HasNoUpper(s: string) {
    forall i :: 0 <= i < |s| ==> !('A' <= s[i] <= 'Z')
  }

  lemma UpperKeepsStripped(t: string)
    requires |t| > 0 ==> !IsSpace(t[0]) && !IsSpace(t[|t| - 1])
    ensures |Upper(t)| > 0 ==> !IsSpace(Upper(t)[0]) && !IsSpace(Upper(t)[|t| - 1])
  {
    if |t| > 0 {
      if 'a' <= t[0] <= 'z' {
        PrintableIsNotSpace(Upper(t)[0]);
      }
      if 'a' <= t[|t| - 1] <= 'z' {
        PrintableIsNotSpace(Upper(t)[|t| - 1]);
      }
    }
  }

  lemma LowerKeepsStripped(t: string)
    requires |t| > 0 ==> !IsSpace(t[0]) && !IsSpace(t[|t| - 1])
    ensures |Lower(t)| > 0 ==> !IsSpace(Lower(t)[0]) && !IsSpace(Lower(t)[|t| - 1])
  {
    if |t| > 0 {
      if 'A' <= t[0] <= 'Z' {
        PrintableIsNotSpace(Lower(t)[0]);
      }
      if 'A' <= t[|t| - 1] <= 'Z' {
        PrintableIsNotSpace(Lower(t)[|t| - 1]);
      }
    }
  }

  lemma StrippedIsFixed(t: string)
    requires |t| > 0 ==> !IsSpace(t[0]) && !IsSpace(t[|t| - 1])
    ensures Strip(t) == t
  {
    assert StripLeft(t) == t;
    assert StripRight(t) == t;
  }

  lemma UpperIdempotent(s: string)
    ensures Upper(Upper(s)) == Upper(s)
  {
    assert forall i :: 0 <= i < |s| ==> UpperChar(UpperChar(s[i])) == UpperChar(s[i]);
  }

  lemma LowerIdempotent(s: string)
    ensures Lower(Lower(s)) == Lower(s)
  {
    assert forall i :: 0 <= i < |s| ==> LowerChar(LowerChar(s[i])) == LowerChar(s[i]);
  }

  /** `s.strip().upper()`: trimmed, no lower-case letter left, and a fixed point of itself. */
  function StripUpper(s: string): (r: string)
    ensures |r| <= |s|
    ensures |r| > 0 ==> !IsSpace(r[0]) && !IsSpace(r[|r| - 1])
    ensures HasNoLower(r)
    ensures Strip(r) == r && Upper(r) == r
  {
    StripUpperFacts(s);
    Upper(Strip(s))
  }

  lemma StripUpperFacts(s: string)
    ensures var r := Upper(Strip(s));
      && |r| <= |s|
      && (|r| > 0 ==> !IsSpace(r[0]) && !IsSpace(r[|r| - 1]))
      && HasNoLower(r)
      && Strip(r) == r && Upper(r) == r
  {
    var t := Strip(s);
    UpperKeepsStripped(t);
    StrippedIsFixed(Upper(t));
    UpperIdempotent(t);
    UpperHasNoLower(t);
  }

  lemma UpperHasNoLower(t: string)
    ensures HasNoLower(Upper(t))
  {
    var r := Upper(t);
    forall i | 0 <= i < |r|
      ensures !('a' <= r[i] <= 'z')
    {
      assert r[i] == UpperChar(t[i]);
    }
  }

  lemma StripLowerFacts(s: string)
    ensures var r := Lower(Strip(s));
      && |r| <= |s|
      && (|r| > 0 ==> !IsSpace(r[0]) && !IsSpace(r[|r| - 1]))
      && HasNoUpper(r)
      && Strip(r) == r && Lower(r) == r
  {
    var t := Strip(s);
    LowerKeepsStripped(t);
    StrippedIsFixed(Lower(t));
    LowerIdempotent(t);
  }

  /** `s.strip().lower()`: trimmed, no upper-case letter left, and a fixed point of itself. */
  function StripLower(s: string): (r: string)
    ensures |r| <= |s|
    ensures |r| > 0 ==> !IsSpace(r[0]) && !IsSpace(r[|r| - 1])
    ensures HasNoUpper(r)
    ensures Strip(r) == r && Lower(r) == r
  {
    StripLowerFacts(s);
    Lower(Strip(s))
  }

  /** `s.replace(a, b)` for single characters. */
  function ReplaceChar(s: string, a: char, b: char): (r: string)
    ensures |r| == |s|
    ensures forall i :: 0 <= i < |s| ==> r[i] == (if s[i] == a then b else s[i])
  {
    seq(|s|, i requires 0 <= i < |s| => if s[i] == a then b else s[i])
  }
}
