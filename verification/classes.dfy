/**
 The text forms of trademark classes the extractor understands
 (data_transformer.py:181-233): a `;`-separated list of codes, and free goods/services
 text in which `class 9` or `Class 42` names a class.

 Digits are the ASCII digits; `\d` in a Python `str` pattern also matches other Unicode
 decimal digits, which the model does not.
 */
module Classes {
  import opened Wrappers
  import opened Text
  import opened Strings

  // ---------------------------------------------------------------------------
  // `[code.strip() for code in s.split(';') if code.strip()]`

  /** A stripped, non-empty code without a separator in it. */
  predicate IsCode(p: string) {
    p != "" && Strip(p) == p && ';' !in p
  }

  /** The stripped form of each part whose stripped form is not empty, in order. */
  function NonEmptyStripped(parts: seq<string>): (r: seq<string>)
    ensures |r| <= |parts|
    ensures forall i :: 0 <= i < |r| ==> r[i] != "" && Strip(r[i]) == r[i]
  {
    if |parts| == 0 then []
    else
      var p := Strip(parts[0]);
      StripStripped(parts[0]);
      (if p != "" then [p] else []) + NonEmptyStripped(parts[1..])
  }

  lemma StripStripped(s: string)
    ensures Strip(Strip(s)) == Strip(s)
  {
    StrippedIsFixed(Strip(s));
  }

  /** Stripping only removes characters: it never introduces one. */
  lemma StripKeepsOut(s: string, c: char)
    requires c !in s
    ensures c !in Strip(s)
  {
    var t := StripLeft(s);
    assert t == s[|s| - |t|..];
    var r := StripRight(t);
    assert r == t[..|r|];
  }

  /** The codes of a `;`-separated list. */
  function Pieces(s: string): (r: seq<string>)
    ensures forall i :: 0 <= i < |r| ==> IsCode(r[i])
  {
    var parts := Split(s, ';');
    var r := NonEmptyStripped(parts);
    NonEmptyStrippedKeepsOut(parts, ';');
    r
  }

  /** No string of `parts` contains `c`. */
  predicate Omits(parts: seq<string>, c: char) {
    forall i :: 0 <= i < |parts| ==> c !in parts[i]
  }

  lemma {:induction false} NonEmptyStrippedKeepsOut(parts: seq<string>, c: char)
    requires Omits(parts, c)
    ensures Omits(NonEmptyStripped(parts), c)
    decreases |parts|
  {
    if |parts| > 0 {
      var p := Strip(parts[0]);
      var head := if p != "" then [p] else [];
      StripKeepsOut(parts[0], c);
      OmitsTail(parts, c);
      NonEmptyStrippedKeepsOut(parts[1..], c);
      NonEmptyStrippedUnfold(parts);
      OmitsConcat(head, NonEmptyStripped(parts[1..]), c);
    }
  }

  lemma OmitsTail(parts: seq<string>, c: char)
    requires |parts| > 0 && Omits(parts, c)
    ensures Omits(parts[1..], c)
  {
    assert forall i :: 0 <= i < |parts| - 1 ==> parts[1..][i] == parts[i + 1];
  }

  lemma OmitsConcat(a: seq<string>, b: seq<string>, c: char)
    requires Omits(a, c) && Omits(b, c)
    ensures Omits(a + b, c)
  {
    forall i | 0 <= i < |a + b|
      ensures c !in (a + b)[i]
    {
      if i < |a| {
        assert (a + b)[i] == a[i];
      } else {
        assert (a + b)[i] == b[i - |a|];
      }
    }
  }

  lemma NonEmptyStrippedUnfold(parts: seq<string>)
    requires |parts| > 0
    ensures NonEmptyStripped(parts) ==
      (if Strip(parts[0]) != "" then [Strip(parts[0])] else []) + NonEmptyStripped(parts[1..])
  {
  }

  lemma {:induction false} NonEmptyStrippedOfCodes(parts: seq<string>)
    requires forall i :: 0 <= i < |parts| ==> IsCode(parts[i])
    ensures NonEmptyStripped(parts) == parts
  {
    if |parts| > 0 {
      NonEmptyStrippedOfCodes(parts[1..]);
      assert parts == [parts[0]] + parts[1..];
    }
  }

  /** Joining codes with `;` and reading them back gives the same codes. */
  lemma PiecesJoin(codes: seq<string>)
    requires forall i :: 0 <= i < |codes| ==> IsCode(codes[i])
    ensures Pieces(Join(codes, ";")) == codes
  {
    if |codes| == 0 {
      assert Split("", ';') == [""];
      assert Strip("") == "";
    } else {
      SplitJoin(codes, ';');
      NonEmptyStrippedOfCodes(codes);
    }
  }

  /** Whitespace around codes and empty entries are ignored. */
  lemma PiecesIgnoreBlanks(codes: seq<string>, pads: seq<string>)
    requires |pads| == |codes|
    requires forall i :: 0 <= i < |codes| ==> IsCode(codes[i])
    requires forall i :: 0 <= i < |pads| ==> AllSpace(pads[i]) && ';' !in pads[i]
    ensures Pieces(Join(Padded(codes, pads), ";") + ";") == codes
  {
    var padded := Padded(codes, pads);
    if |codes| == 0 {
      assert Join(padded, ";") + ";" == ";";
      assert Split("", ';') == [""];
      assert Split(";", ';') == [""] + Split("", ';');
      assert Strip("") == "";
      assert NonEmptyStripped(["", ""]) == [];
    } else {
      assert forall i :: 0 <= i < |padded| ==> ';' !in padded[i];
      SplitJoinSnoc(padded);
      NonEmptyStrippedPadded(codes, pads);
      NonEmptyStrippedAppend(padded, [""]);
      assert Strip("") == "";
    }
  }

  /** Each code with blank padding on its right. */
  function Padded(codes: seq<string>, pads: seq<string>): (r: seq<string>)
    requires |pads| == |codes|
    ensures |r| == |codes|
    ensures forall i :: 0 <= i < |r| ==> r[i] == codes[i] + pads[i]
  {
    seq(|codes|, i requires 0 <= i < |codes| => codes[i] + pads[i])
  }

  lemma SplitJoinSnoc(parts: seq<string>)
    requires |parts| >= 1 && forall i :: 0 <= i < |parts| ==> ';' !in parts[i]
    ensures Split(Join(parts, ";") + ";", ';') == parts + [""]
  {
    var ext := parts + [""];
    assert forall i :: 0 <= i < |ext| ==> ';' !in ext[i];
    SplitJoin(ext, ';');
    JoinSnocEmpty(parts);
  }

  lemma {:induction false} JoinSnocEmpty(parts: seq<string>)
    requires |parts| >= 1
    ensures Join(parts + [""], ";") == Join(parts, ";") + ";"
    decreases |parts|
  {
    if |parts| == 1 {
      assert Join(parts + [""], ";") == parts[0] + ";" + Join([""], ";");
    } else {
      assert (parts + [""])[1..] == parts[1..] + [""];
      JoinSnocEmpty(parts[1..]);
    }
  }

  lemma {:induction false} NonEmptyStrippedAppend(a: seq<string>, b: seq<string>)
    ensures NonEmptyStripped(a + b) == NonEmptyStripped(a) + NonEmptyStripped(b)
    decreases |a|
  {
    if |a| > 0 {
      AppendTail(a, b);
      NonEmptyStrippedAppend(a[1..], b);
      NonEmptyStrippedUnfold(a + b);
      NonEmptyStrippedUnfold(a);
      ConcatAssoc(if Strip(a[0]) != "" then [Strip(a[0])] else [], NonEmptyStripped(a[1..]), NonEmptyStripped(b));
    } else {
      EmptyConcat(a, b);
    }
  }

  lemma AppendTail(a: seq<string>, b: seq<string>)
    requires |a| > 0
    ensures (a + b)[0] == a[0] && (a + b)[1..] == a[1..] + b
  {
  }

  lemma ConcatAssoc(x: seq<string>, y: seq<string>, z: seq<string>)
    ensures x + (y + z) == (x + y) + z
  {
  }

  lemma EmptyConcat(a: seq<string>, b: seq<string>)
    requires |a| == 0
    ensures a + b == b
  {
  }

  lemma {:induction false} NonEmptyStrippedPadded(codes: seq<string>, pads: seq<string>)
    requires |pads| == |codes|
    requires forall i :: 0 <= i < |codes| ==> IsCode(codes[i])
    requires forall i :: 0 <= i < |pads| ==> AllSpace(pads[i])
    ensures NonEmptyStripped(Padded(codes, pads)) == codes
    decreases |codes|
  {
    if |codes| > 0 {
      var padded := Padded(codes, pads);
      StripPadded(codes[0], pads[0]);
      PaddedTail(codes, pads);
      NonEmptyStrippedPadded(codes[1..], pads[1..]);
      NonEmptyStrippedUnfold(padded);
      ConsTail(codes);
    }
  }

  lemma PaddedTail(codes: seq<string>, pads: seq<string>)
    requires |pads| == |codes| > 0
    ensures Padded(codes, pads)[0] == codes[0] + pads[0]
    ensures Padded(codes, pads)[1..] == Padded(codes[1..], pads[1..])
    ensures forall i :: 0 <= i < |codes| - 1 ==> codes[1..][i] == codes[i + 1] && pads[1..][i] == pads[i + 1]
  {
  }

  lemma ConsTail(s: seq<string>)
    requires |s| > 0
    ensures [s[0]] + s[1..] == s
  {
  }

  lemma StripPadded(code: string, pad: string)
    requires IsCode(code) && AllSpace(pad)
    ensures Strip(code + pad) == code
  {
    var s := code + pad;
    assert StripLeft(s) == s;
    StripRightPad(code, pad);
  }

  lemma {:induction false} StripRightPad(code: string, pad: string)
    requires code != "" && !IsSpace(code[|code| - 1]) && AllSpace(pad)
    ensures StripRight(code + pad) == code
    decreases |pad|
  {
    if |pad| > 0 {
      var s := code + pad;
      assert s[..|s| - 1] == code + pad[..|pad| - 1];
      StripRightPad(code, pad[..|pad| - 1]);
    } else {
      assert code + pad == code;
    }
  }

  // ---------------------------------------------------------------------------
  // `re.findall(r'[Cc]lass\s+(\d+)', text)`

  /** Length of the leading run of whitespace. */
  function SpaceRun(s: string): (n: nat)
    ensures n <= |s|
    ensures forall i :: 0 <= i < n ==> IsSpace(s[i])
    ensures n < |s| ==> !IsSpace(s[n])
  {
    if |s| > 0 && IsSpace(s[0]) then 1 + SpaceRun(s[1..]) else 0
  }

  /** Length of the leading run of digits. */
  function DigitRun(s: string): (n: nat)
    ensures n <= |s|
    ensures forall i :: 0 <= i < n ==> IsDigit(s[i])
    ensures n < |s| ==> !IsDigit(s[n])
  {
    if |s| > 0 && IsDigit(s[0]) then 1 + DigitRun(s[1..]) else 0
  }

  /**
   A match of the pattern at the very start of `s`: the captured digits and the length
   of the whole match. Both runs are greedy; backtracking cannot help, since giving up a
   whitespace character leaves a non-digit next.
   */
  function ClassAt(s: string): (r: Option<(string, nat)>)
    ensures r.Some? ==> r.value.0 != "" && AllDigits(r.value.0) && 6 < r.value.1 <= |s|
  {
    if |s| >= 5 && (s[0] == 'C' || s[0] == 'c') && s[1..5] == "lass" then
      var n := SpaceRun(s[5..]);
      var t := s[5 + n..];
      var d := DigitRun(t);
      if n > 0 && d > 0 then
        Some((t[..d], 5 + n + d))
      else None
    else None
  }

  /** All non-overlapping matches, left to right, as `re.findall` returns the group. */
  function ScanClasses(s: string): (r: seq<string>)
    ensures forall i :: 0 <= i < |r| ==> r[i] != "" && AllDigits(r[i])
    decreases |s|
  {
    if |s| == 0 then []
    else match ClassAt(s)
      case Some(hit) => [hit.0] + ScanClasses(s[hit.1..])
      case None => ScanClasses(s[1..])
  }

  /** Text in which no position starts a match names no class. */
  lemma {:induction false} ScanNothing(s: string)
    requires forall k :: 0 <= k < |s| ==> ClassAt(s[k..]).None?
    ensures ScanClasses(s) == []
    decreases |s|
  {
    if |s| > 0 {
      assert s[0..] == s;
      forall k | 0 <= k < |s| - 1
        ensures ClassAt(s[1..][k..]).None?
      {
        assert s[1..][k..] == s[k + 1..];
      }
      ScanNothing(s[1..]);
    }
  }

  /**
   `class`, at least one whitespace character and a run of digits name that class, and
   the scan resumes after the digits.
   */
  lemma ScanClassWord(c: char, gap: string, digits: string, rest: string)
    requires c == 'C' || c == 'c'
    requires gap != "" && AllSpace(gap)
    requires digits != "" && AllDigits(digits)
    requires rest == [] || !IsDigit(rest[0])
    ensures ScanClasses([c] + "lass" + gap + digits + rest) == [digits] + ScanClasses(rest)
  {
    var s := [c] + "lass" + gap + digits + rest;
    ClassAtWord(c, gap, digits, rest);
    ScanHit(s, digits, 5 + |gap| + |digits|);
    ClassWordRest(c, gap, digits, rest);
  }

  /** A match at the start: its digits, then the scan of what follows the match. */
  lemma ScanHit(s: string, digits: string, len: nat)
    requires |s| > 0 && ClassAt(s) == Some((digits, len))
    ensures ScanClasses(s) == [digits] + ScanClasses(s[len..])
  {
  }

  lemma ClassWordRest(c: char, gap: string, digits: string, rest: string)
    ensures ([c] + "lass" + gap + digits + rest)[5 + |gap| + |digits|..] == rest
  {
  }

  lemma ClassAtWord(c: char, gap: string, digits: string, rest: string)
    requires c == 'C' || c == 'c'
    requires gap != "" && AllSpace(gap)
    requires digits != "" && AllDigits(digits)
    requires rest == [] || !IsDigit(rest[0])
    ensures ClassAt([c] + "lass" + gap + digits + rest) == Some((digits, 5 + |gap| + |digits|))
  {
    var s := [c] + "lass" + gap + digits + rest;
    ClassWordParts(c, gap, digits, rest);
    SpaceRunOf(gap, digits + rest);
    DigitRunOf(digits, rest);
  }

  lemma ClassWordParts(c: char, gap: string, digits: string, rest: string)
    ensures var s := [c] + "lass" + gap + digits + rest;
      && |s| >= 5 && s[0] == c && s[1..5] == "lass"
      && s[5..] == gap + (digits + rest)
      && s[5 + |gap|..] == digits + rest
      && (digits + rest)[..|digits|] == digits
  {
  }

  lemma {:induction false} SpaceRunOf(gap: string, t: string)
    requires AllSpace(gap) && t != [] && !IsSpace(t[0])
    ensures SpaceRun(gap + t) == |gap|
    decreases |gap|
  {
    if |gap| > 0 {
      assert (gap + t)[1..] == gap[1..] + t;
      SpaceRunOf(gap[1..], t);
    } else {
      assert gap + t == t;
    }
  }

  lemma {:induction false} DigitRunOf(digits: string, t: string)
    requires AllDigits(digits) && (t == [] || !IsDigit(t[0]))
    ensures DigitRun(digits + t) == |digits|
    decreases |digits|
  {
    if |digits| > 0 {
      assert (digits + t)[1..] == digits[1..] + t;
      DigitRunOf(digits[1..], t);
    } else {
      assert digits + t == t;
    }
  }
}
