/**
 The date normaliser of the extractor: a value is turned into a `YYYY-MM-DD` string by
 trying a fixed, ordered list of `strptime` patterns, then a timestamp conversion.

 `strptime` is modelled as the matcher CPython builds for a pattern: each directive
 becomes a regular expression (`%d` is `3[01]|[12]\d|0[1-9]|[1-9]| [1-9]`, `%m` is
 `1[0-2]|0[1-9]|[1-9]`, `%Y` is exactly four digits, ...), a blank in the pattern
 becomes `\s+`, literals and month names match without regard to case, and the
 whole string must be consumed. In every pattern used here a numeric field is
 followed by a non-digit token or by the end, so taking the first alternative that
 matches, left to right, finds the same match as the backtracking regular expression.
 */
module Dates {
  import opened Wrappers
  import opened Values
  import opened Text
  import opened Strings

  // ---------------------------------------------------------------------------
  // calendar

  datatype Date = Date(year: int, month: int, day: int)

  predicate IsLeapYear(y: int) {
    y % 4 == 0 && (y % 100 != 0 || y % 400 == 0)
  }

  function DaysInMonth(y: int, m: int): (n: int)
    requires 1 <= m <= 12
    ensures 28 <= n <= 31
  {
    if m == 2 then (if IsLeapYear(y) then 29 else 28)
    else if m == 4 || m == 6 || m == 9 || m == 11 then 30
    else 31
  }

  /** What `datetime.date` accepts: years 1..9999 and a day that exists in its month. */
  predicate ValidDate(d: Date) {
    1 <= d.year <= 9999 && 1 <= d.month <= 12 && 1 <= d.day <= DaysInMonth(d.year, d.month)
  }

  type CalendarDate = d: Date | ValidDate(d) witness Date(1, 1, 1)

  /** Chronological order. */
  predicate Before(a: Date, b: Date) {
    a.year < b.year || (a.year == b.year && (a.month < b.month || (a.month == b.month && a.day < b.day)))
  }

  // ---------------------------------------------------------------------------
  // the output form YYYY-MM-DD

  /** `strftime("%Y-%m-%d")`, with the year padded to four digits. */
  function Render(d: CalendarDate): (r: string)
    ensures IsIsoDate(r) && IsoDate(r) == d
  {
    PadValue(d.year, 4);
    PadValue(d.month, 2);
    PadValue(d.day, 2);
    DashJoined(Pad(d.year, 4), Pad(d.month, 2), Pad(d.day, 2));
    Pad(d.year, 4) + "-" + Pad(d.month, 2) + "-" + Pad(d.day, 2)
  }

  /** Where the three fields sit in `a-b-c`. */
  lemma DashJoined(a: string, b: string, c: string)
    requires |a| == 4 && |b| == 2 && |c| == 2
    ensures var r := a + "-" + b + "-" + c;
            |r| == 10 && r[..4] == a && r[4] == '-' && r[5..7] == b && r[7] == '-' && r[8..] == c
  {
  }

  /** A string of the form YYYY-MM-DD naming a real calendar day. */
  predicate IsIsoDate(s: string) {
    |s| == 10 && AllDigits(s[..4]) && s[4] == '-' && AllDigits(s[5..7]) && s[7] == '-'
    && AllDigits(s[8..])
    && ValidDate(Date(DigitsValue(s[..4]), DigitsValue(s[5..7]), DigitsValue(s[8..])))
  }

  /** The day an ISO date string names. */
  function IsoDate(s: string): (d: CalendarDate)
    requires IsIsoDate(s)
    ensures d.year == DigitsValue(s[..4]) && d.month == DigitsValue(s[5..7]) && d.day == DigitsValue(s[8..])
  {
    Date(DigitsValue(s[..4]), DigitsValue(s[5..7]), DigitsValue(s[8..]))
  }

  /** A digit string is the padded rendering of the number it denotes. */
  lemma {:induction false} PadOfDigits(x: string)
    requires AllDigits(x)
    ensures DigitsValue(x) < Pow10(|x|) && Pad(DigitsValue(x), |x|) == x
    decreases |x|
  {
    if |x| > 0 {
      var p := x[..|x| - 1];
      assert AllDigits(p);
      PadOfDigits(p);
      assert x == p + [x[|x| - 1]];
    }
  }

  /** Rendering the day an ISO string names gives the string back. */
  lemma IsoRoundTrip(s: string)
    requires IsIsoDate(s)
    ensures Render(IsoDate(s)) == s
  {
    PadOfDigits(s[..4]);
    PadOfDigits(s[5..7]);
    PadOfDigits(s[8..]);
    assert s == s[..4] + "-" + s[5..7] + "-" + s[8..];
  }

  /** On rendered dates, Python's string order is chronological order. */
  lemma RenderOrder(a: CalendarDate, b: CalendarDate)
    ensures StrLess(Render(a), Render(b)) <==> Before(a, b)
  {
    var ya, yb := Pad(a.year, 4), Pad(b.year, 4);
    var ma, mb := Pad(a.month, 2), Pad(b.month, 2);
    var da, db := Pad(a.day, 2), Pad(b.day, 2);
    RenderParts(a);
    RenderParts(b);
    DashedLess(ya, yb, ma + ("-" + da), mb + ("-" + db));
    DashedLess(ma, mb, da, db);
    PadOrder(a.year, b.year, 4);
    PadInjective(a.year, b.year, 4);
    PadOrder(a.month, b.month, 2);
    PadInjective(a.month, b.month, 2);
    PadOrder(a.day, b.day, 2);
  }

  lemma RenderParts(d: CalendarDate)
    ensures Render(d) == Pad(d.year, 4) + ("-" + (Pad(d.month, 2) + ("-" + Pad(d.day, 2))))
  {
  }

  /** Comparing two equal-length heads, each followed by a dash and a tail. */
  lemma DashedLess(p: string, q: string, x: string, y: string)
    requires |p| == |q|
    ensures StrLess(p + ("-" + x), q + ("-" + y)) <==> StrLess(p, q) || (p == q && StrLess(x, y))
  {
    StrLessAppend(p, "-" + x, q, "-" + y);
    StrLessAppend("-", x, "-", y);
    StrLessIrreflexive("-");
  }

  // ---------------------------------------------------------------------------
  // strptime

  /** One element of a compiled `strptime` pattern. */
  datatype Directive =
    | Year          // %Y
    | Month         // %m
    | Day           // %d
    | Hour          // %H
    | Minute        // %M
    | Second        // %S
    | MonthName     // %B
    | MonthAbbrev   // %b
    | Spaces        // a blank in the pattern: one or more whitespace characters
    | Lit(c: char)  // any other pattern character, matched without regard to case

  /** The fields `strptime` has read so far; unset ones keep its defaults (1900-01-01 00:00:00). */
  datatype Fields = Fields(year: int, month: int, day: int, hour: int, minute: int, second: int)

  const Defaults := Fields(1900, 1, 1, 0, 0, 0)

  /** A successful token match: the number it denotes and how many characters it used. */
  datatype Match = Match(value: nat, len: nat)

  /** The thirteen patterns of the normaliser, in the order they are tried. */
  const Formats: seq<seq<Directive>> := [
    [Year, Lit('-'), Month, Lit('-'), Day],                                  // %Y-%m-%d
    [Year, Lit('/'), Month, Lit('/'), Day],                                  // %Y/%m/%d
    [Month, Lit('/'), Day, Lit('/'), Year],                                  // %m/%d/%Y
    [Day, Lit('/'), Month, Lit('/'), Year],                                  // %d/%m/%Y
    [Day, Lit('.'), Month, Lit('.'), Year],                                  // %d.%m.%Y
    [Day, Lit('-'), Month, Lit('-'), Year],                                  // %d-%m-%Y
    [Year, Lit('-'), Month, Lit('-'), Day, Lit('T'),
     Hour, Lit(':'), Minute, Lit(':'), Second],                              // %Y-%m-%dT%H:%M:%S
    [Year, Lit('-'), Month, Lit('-'), Day, Lit('T'),
     Hour, Lit(':'), Minute, Lit(':'), Second, Lit('Z')],                    // %Y-%m-%dT%H:%M:%SZ
    [Year, Lit('-'), Month, Lit('-'), Day, Spaces,
     Hour, Lit(':'), Minute, Lit(':'), Second],                              // %Y-%m-%d %H:%M:%S
    [MonthName, Spaces, Day, Lit(','), Spaces, Year],                        // %B %d, %Y
    [MonthAbbrev, Spaces, Day, Lit(','), Spaces, Year],                      // %b %d, %Y
    [Day, Spaces, MonthName, Spaces, Year],                                  // %d %B %Y
    [Day, Spaces, MonthAbbrev, Spaces, Year]                                 // %d %b %Y
  ]

  const MonthNames: seq<string> := ["january", "february", "march", "april", "may", "june",
    "july", "august", "september", "october", "november", "december"]

  const MonthAbbrevs: seq<string> := ["jan", "feb", "mar", "apr", "may", "jun",
    "jul", "aug", "sep", "oct", "nov", "dec"]

  function OrElse(a: Option<Match>, b: Option<Match>): Option<Match> {
    if a.Some? then a else b
  }

  /** The regular expression `[lo0-hi0][lo1-hi1]` over decimal digits. */
  function TwoDigits(t: string, lo0: char, hi0: char, lo1: char, hi1: char): (r: Option<Match>)
    requires '0' <= lo0 && hi0 <= '9' && '0' <= lo1 && hi1 <= '9'
    ensures r.Some? <==> |t| >= 2 && lo0 <= t[0] <= hi0 && lo1 <= t[1] <= hi1
    ensures r.Some? ==> r.value.len == 2 && AllDigits(t[..2]) && r.value.value == DigitsValue(t[..2])
  {
    if |t| >= 2 && lo0 <= t[0] <= hi0 && lo1 <= t[1] <= hi1 then
      TwoDigitsValue(t);
      Some(Match(10 * DigitValue(t[0]) + DigitValue(t[1]), 2))
    else None
  }

  lemma TwoDigitsValue(t: string)
    requires |t| >= 2 && IsDigit(t[0]) && IsDigit(t[1])
    ensures AllDigits(t[..2]) && DigitsValue(t[..2]) == 10 * DigitValue(t[0]) + DigitValue(t[1])
  {
    var p := t[..2];
    assert p[..1] == [t[0]] && [t[0]][..0] == [];
    assert DigitsValue([t[0]]) == DigitValue(t[0]);
  }

  lemma FourDigitsValue(t: string)
    requires |t| >= 4 && IsDigit(t[0]) && IsDigit(t[1]) && IsDigit(t[2]) && IsDigit(t[3])
    ensures AllDigits(t[..4])
    ensures DigitsValue(t[..4]) == 1000 * DigitValue(t[0]) + 100 * DigitValue(t[1]) + 10 * DigitValue(t[2]) + DigitValue(t[3])
  {
    TwoDigitsValue(t);
    var p := t[..4];
    assert p[..3][..2] == t[..2];
    assert DigitsValue(p[..3]) == DigitsValue(t[..2]) * 10 + DigitValue(t[2]);
  }

  /** The regular expression `[lo-hi]` over decimal digits. */
  function OneDigit(t: string, lo: char, hi: char): (r: Option<Match>)
    requires '0' <= lo && hi <= '9'
    ensures r.Some? <==> |t| >= 1 && lo <= t[0] <= hi
    ensures r.Some? ==> r.value.len == 1 && r.value.value == DigitValue(t[0])
  {
    if |t| >= 1 && lo <= t[0] <= hi then Some(Match(DigitValue(t[0]), 1)) else None
  }

  /** `%d`: `3[01]|[12]\d|0[1-9]|[1-9]| [1-9]` */
  function DayField(t: string): Option<Match> {
    OrElse(TwoDigits(t, '3', '3', '0', '1'),
    OrElse(TwoDigits(t, '1', '2', '0', '9'),
    OrElse(TwoDigits(t, '0', '0', '1', '9'),
    OrElse(OneDigit(t, '1', '9'),
           if |t| >= 2 && t[0] == ' ' && '1' <= t[1] <= '9' then Some(Match(DigitValue(t[1]), 2)) else None))))
  }

  /** `%m`: `1[0-2]|0[1-9]|[1-9]` */
  function MonthField(t: string): Option<Match> {
    OrElse(TwoDigits(t, '1', '1', '0', '2'),
    OrElse(TwoDigits(t, '0', '0', '1', '9'),
           OneDigit(t, '1', '9')))
  }

  /** `%H`: `2[0-3]|[01]\d|\d` */
  function HourField(t: string): Option<Match> {
    OrElse(TwoDigits(t, '2', '2', '0', '3'),
    OrElse(TwoDigits(t, '0', '1', '0', '9'),
           OneDigit(t, '0', '9')))
  }

  /** `%M`: `[0-5]\d|\d` */
  function MinuteField(t: string): Option<Match> {
    OrElse(TwoDigits(t, '0', '5', '0', '9'), OneDigit(t, '0', '9'))
  }

  /** `%S`: `6[01]|[0-5]\d|\d` */
  function SecondField(t: string): Option<Match> {
    OrElse(TwoDigits(t, '6', '6', '0', '1'),
    OrElse(TwoDigits(t, '0', '5', '0', '9'),
           OneDigit(t, '0', '9')))
  }

  /** `%Y`: exactly four digits. */
  function YearField(t: string): (r: Option<Match>)
    ensures r.Some? ==> r.value.len == 4
  {
    if |t| >= 4 && AllDigits(t[..4]) then Some(Match(DigitsValue(t[..4]), 4)) else None
  }

  /** `%B` / `%b`: the first month whose name starts `t`, ignoring case; the value is the month number. */
  function NameField(t: string, names: seq<string>, k: nat): (r: Option<Match>)
    requires k <= |names|
    ensures r.Some? ==> 0 < r.value.len <= |t| && k < r.value.value <= |names|
    decreases |names| - k
  {
    if k == |names| then None
    else if 0 < |names[k]| <= |t| && Lower(t[..|names[k]|]) == names[k] then Some(Match(k + 1, |names[k]|))
    else NameField(t, names, k + 1)
  }

  /** The characters one directive consumes at the start of `t`, and the number they denote. */
  function MatchDirective(d: Directive, t: string): (r: Option<Match>)
    ensures r.Some? ==> 0 < r.value.len <= |t|
  {
    match d
    case Year => YearField(t)
    case Month => MonthField(t)
    case Day => DayField(t)
    case Hour => HourField(t)
    case Minute => MinuteField(t)
    case Second => SecondField(t)
    case MonthName => NameField(t, MonthNames, 0)
    case MonthAbbrev => NameField(t, MonthAbbrevs, 0)
    case Spaces =>
      var n := |t| - |StripLeft(t)|;
      if n > 0 then Some(Match(0, n)) else None
    case Lit(c) => if |t| >= 1 && LowerChar(t[0]) == LowerChar(c) then Some(Match(0, 1)) else None
  }

  function Store(f: Fields, d: Directive, v: nat): Fields {
    match d
    case Year => f.(year := v)
    case Month => f.(month := v)
    case MonthName => f.(month := v)
    case MonthAbbrev => f.(month := v)
    case Day => f.(day := v)
    case Hour => f.(hour := v)
    case Minute => f.(minute := v)
    case Second => f.(second := v)
    case _ => f
  }

  /** Match the pattern against all of `t`; leftover characters are a failure ("unconverted data remains"). */
  function ParseFrom(fmt: seq<Directive>, t: string, f: Fields): Option<Fields>
    decreases |fmt|
  {
    if |fmt| == 0 then (if t == "" then Some(f) else None)
    else match MatchDirective(fmt[0], t)
      case None => None
      case Some(m) => ParseFrom(fmt[1..], t[m.len..], Store(f, fmt[0], m.value))
  }

  /** `datetime.strptime(s, fmt)` reduced to its date: the match, then what `datetime` itself rejects. */
  function Strptime(fmt: seq<Directive>, s: string): (r: Option<CalendarDate>)
    ensures r.Some? ==> exists f :: ParseFrom(fmt, s, Defaults) == Some(f) && r.value == Date(f.year, f.month, f.day)
  {
    match ParseFrom(fmt, s, Defaults)
    case None => None
    case Some(f) =>
      var d := Date(f.year, f.month, f.day);
      if ValidDate(d) && 0 <= f.hour <= 23 && 0 <= f.minute <= 59 && 0 <= f.second <= 59 then Some(d) else None
  }

  /** The first pattern, from index `k` on, that accepts `s`, with the day it reads. */
  function FirstParse(s: string, k: nat): (r: Option<(nat, CalendarDate)>)
    requires k <= |Formats|
    ensures r.None? <==> forall i :: k <= i < |Formats| ==> Strptime(Formats[i], s).None?
    ensures r.Some? ==> k <= r.value.0 < |Formats| && Strptime(Formats[r.value.0], s) == Some(r.value.1)
                        && forall i :: k <= i < r.value.0 ==> Strptime(Formats[i], s).None?
  {
    FirstAccepting(Formats, s, k)
  }

  /** The first of `formats`, from index `k` on, that accepts `s`, with the day it reads. */
  function FirstAccepting(formats: seq<seq<Directive>>, s: string, k: nat): (r: Option<(nat, CalendarDate)>)
    requires k <= |formats|
    ensures r.None? <==> forall i :: k <= i < |formats| ==> Strptime(formats[i], s).None?
    ensures r.Some? ==> k <= r.value.0 < |formats| && Strptime(formats[r.value.0], s) == Some(r.value.1)
                        && forall i :: k <= i < r.value.0 ==> Strptime(formats[i], s).None?
    decreases |formats| - k
  {
    if k == |formats| then None
    else match Strptime(formats[k], s)
      case Some(d) => Some((k, d))
      case None => FirstAccepting(formats, s, k + 1)
  }

  // ---------------------------------------------------------------------------
  // the normaliser

  /**
   The timestamp conversion `datetime.fromtimestamp(float(v))` in the local time zone,
   left uninterpreted: `None` when it raises an error the normaliser catches.
   */
  type Clock = Value -> Option<CalendarDate>

  /** `_normalize_date` */
  function NormalizeDate(v: Value, clock: Clock): (r: Value)
    ensures r == Null || (r.Str? && IsIsoDate(r.s))
    ensures v.Null? || v.List? || v.Obj? ==> r == Null
    ensures v.Str? && FirstParse(v.s, 0).Some? ==> r == Str(Render(FirstParse(v.s, 0).value.1))
    ensures v.Str? && FirstParse(v.s, 0).None? ==> r == (if clock(v).Some? then Str(Render(clock(v).value)) else Null)
    ensures v.Int? || v.Bool? ==> r == (if clock(v).Some? then Str(Render(clock(v).value)) else Null)
  {
    match v
    case Str(s) =>
      (match FirstParse(s, 0)
       case Some(hit) => Str(Render(hit.1))
       case None => FromTimestamp(v, clock))
    case Int(_) => FromTimestamp(v, clock)
    case Bool(_) => FromTimestamp(v, clock)
    case _ => Null
  }

  function FromTimestamp(v: Value, clock: Clock): (r: Value)
    ensures r == Null || (r.Str? && IsIsoDate(r.s))
  {
    match clock(v)
    case Some(d) => Str(Render(d))
    case None => Null
  }

  // ---------------------------------------------------------------------------
  // properties

  lemma {:induction false} MonthFieldOfTwo(t: string)
    requires |t| >= 2 && AllDigits(t[..2]) && 1 <= DigitsValue(t[..2]) <= 12
    ensures MonthField(t) == Some(Match(DigitsValue(t[..2]), 2))
  {
    assert t[..2][..1] == [t[0]];
  }

  lemma {:induction false} DayFieldOfTwo(t: string)
    requires |t| >= 2 && AllDigits(t[..2]) && 1 <= DigitsValue(t[..2]) <= 31
    ensures DayField(t) == Some(Match(DigitsValue(t[..2]), 2))
  {
    assert t[..2][..1] == [t[0]];
  }

  const IsoHead: seq<Directive> := [Year, Lit('-'), Month, Lit('-'), Day]

  /** The directives `%Y-%m-%d` read the date at the head of `s + rest` and leave `rest`. */
  lemma IsoHeadParses(s: string, rest: string, tail: seq<Directive>)
    requires IsIsoDate(s)
    ensures ParseFrom(IsoHead + tail, s + rest, Defaults)
         == ParseFrom(tail, rest, Defaults.(year := IsoDate(s).year).(month := IsoDate(s).month).(day := IsoDate(s).day))
  {
    var fmt := IsoHead + tail;
    var t := s + rest;
    var y := DigitsValue(s[..4]);
    assert t[..4] == s[..4];
    assert YearField(t) == Some(Match(y, 4));
    var t1 := t[4..];
    assert MatchDirective(Lit('-'), t1) == Some(Match(0, 1));
    var t2 := t1[1..];
    assert t2 == s[5..] + rest && t2[..2] == s[5..7];
    MonthFieldOfTwo(t2);
    var t3 := t2[2..];
    assert MatchDirective(Lit('-'), t3) == Some(Match(0, 1));
    var t4 := t3[1..];
    assert t4 == s[8..] + rest && t4[..2] == s[8..];
    DayFieldOfTwo(t4);
    assert t4[2..] == rest;
    var f2 := Defaults.(year := y).(month := DigitsValue(s[5..7]));
    assert fmt[4..] == [Day] + tail;
    var f1 := Defaults.(year := y);
    assert fmt[0] == Year && fmt[1] == Lit('-') && fmt[2] == Month && fmt[3] == Lit('-') && fmt[4] == Day;
    assert fmt[5..] == tail;
    assert ParseFrom(fmt[4..], t4, f2) == ParseFrom(tail, rest, f2.(day := DigitsValue(s[8..])));
    assert ParseFrom(fmt[3..], t3, f2) == ParseFrom(fmt[4..], t4, f2);
    assert ParseFrom(fmt[2..], t2, f1) == ParseFrom(fmt[3..], t3, f2);
    assert ParseFrom(fmt[1..], t1, f1) == ParseFrom(fmt[2..], t2, f1);
    assert ParseFrom(fmt, t, Defaults) == ParseFrom(fmt[1..], t1, f1);
  }

  const TimeTail: seq<Directive> := [Lit('T'), Hour, Lit(':'), Minute, Lit(':'), Second]

  lemma TimeTailParses(rest: string, tail: seq<Directive>, f: Fields)
    ensures ParseFrom(TimeTail + tail, "T10:00:00" + rest, f)
         == ParseFrom(tail, rest, f.(hour := 10).(minute := 0).(second := 0))
  {
    TimeTailPieces(rest, tail);
    HourPair(":00" + (":00" + rest), [Lit(':'), Minute] + ([Lit(':'), Second] + tail), f);
    MinutePair(":00" + rest, [Lit(':'), Second] + tail, f.(hour := 10));
    SecondPair(rest, tail, f.(hour := 10).(minute := 0));
  }

  /** The time pattern and the time text, cut into separator-and-field pairs. */
  lemma TimeTailPieces(rest: string, tail: seq<Directive>)
    ensures TimeTail + tail == [Lit('T'), Hour] + ([Lit(':'), Minute] + ([Lit(':'), Second] + tail))
    ensures "T10:00:00" + rest == "T10" + (":00" + (":00" + rest))
  {
  }

  lemma HourPair(rest: string, tail: seq<Directive>, f: Fields)
    ensures ParseFrom([Lit('T'), Hour] + tail, "T10" + rest, f) == ParseFrom(tail, rest, f.(hour := 10))
  {
    TwoDigitsValue("10" + rest);
    assert "T10" + rest == ['T'] + "10" + rest;
    PairParses('T', Hour, "10", 10, tail, rest, f);
  }

  lemma MinutePair(rest: string, tail: seq<Directive>, f: Fields)
    ensures ParseFrom([Lit(':'), Minute] + tail, ":00" + rest, f) == ParseFrom(tail, rest, f.(minute := 0))
  {
    TwoDigitsValue("00" + rest);
    assert ":00" + rest == [':'] + "00" + rest;
    PairParses(':', Minute, "00", 0, tail, rest, f);
  }

  lemma SecondPair(rest: string, tail: seq<Directive>, f: Fields)
    ensures ParseFrom([Lit(':'), Second] + tail, ":00" + rest, f) == ParseFrom(tail, rest, f.(second := 0))
  {
    TwoDigitsValue("00" + rest);
    assert ":00" + rest == [':'] + "00" + rest;
    PairParses(':', Second, "00", 0, tail, rest, f);
  }

  /** A one-character separator followed by a two-digit field. */
  lemma PairParses(sep: char, d: Directive, digits: string, v: nat, tail: seq<Directive>, rest: string, f: Fields)
    requires |digits| == 2 && MatchDirective(d, digits + rest) == Some(Match(v, 2))
    ensures ParseFrom([Lit(sep), d] + tail, [sep] + digits + rest, f) == ParseFrom(tail, rest, Store(f, d, v))
  {
    var fmt := [Lit(sep), d] + tail;
    var t := [sep] + digits + rest;
    assert fmt[0] == Lit(sep) && fmt[1..] == [d] + tail && fmt[1..][1..] == tail;
    assert t[0] == sep && t[1..] == digits + rest && (digits + rest)[2..] == rest;
    ParseStep(fmt, t, f, Match(0, 1));
    ParseStep(fmt[1..], t[1..], f, Match(v, 2));
  }

  /** The matcher fails as soon as the head directive does not match. */
  lemma ParseFails(fmt: seq<Directive>, t: string, f: Fields)
    requires |fmt| > 0 && MatchDirective(fmt[0], t).None?
    ensures ParseFrom(fmt, t, f).None?
  {
  }

  /** The matcher fails when the second directive does not match after the first. */
  lemma SecondFails(fmt: seq<Directive>, t: string, m: Match)
    requires |fmt| > 1 && MatchDirective(fmt[0], t) == Some(m) && MatchDirective(fmt[1], t[m.len..]).None?
    ensures Strptime(fmt, t).None?
  {
    ParseStep(fmt, t, Defaults, m);
    ParseFails(fmt[1..], t[m.len..], Store(Defaults, fmt[0], m.value));
  }

  /** One step of the matcher: the head directive consumes `m.len` characters. */
  lemma ParseStep(fmt: seq<Directive>, t: string, f: Fields, m: Match)
    requires |fmt| > 0 && MatchDirective(fmt[0], t) == Some(m)
    ensures ParseFrom(fmt, t, f) == ParseFrom(fmt[1..], t[m.len..], Store(f, fmt[0], m.value))
  {
  }

  /** The first pattern reads an ISO date string as the day it names. */
  lemma IsoParses(s: string)
    requires IsIsoDate(s)
    ensures Strptime(Formats[0], s) == Some(IsoDate(s))
  {
    IsoHeadParses(s, "", []);
    assert IsoHead + [] == Formats[0] && s + "" == s;
  }

  /** Normalising an already normalised date gives it back. */
  lemma NormalizeIsoDate(s: string, clock: Clock)
    requires IsIsoDate(s)
    ensures NormalizeDate(Str(s), clock) == Str(s)
  {
    IsoParses(s);
    IsoRoundTrip(s);
  }

  /** The normaliser is idempotent: its output, normalised again, is unchanged. */
  lemma NormalizeDateIdempotent(v: Value, clock: Clock)
    ensures NormalizeDate(NormalizeDate(v, clock), clock) == NormalizeDate(v, clock)
  {
    var r := NormalizeDate(v, clock);
    if r.Str? {
      NormalizeIsoDate(r.s, clock);
    }
  }

  /** Month-first wins over day-first for an ambiguous slash date. */
  lemma ExampleMonthFirst(clock: Clock)
    ensures NormalizeDate(Str("01/02/2020"), clock) == Str("2020-01-02")
  {
    MonthFirstWins();
    MonthFirstRendered();
  }

  lemma MonthFirstRendered()
    ensures Render(Date(2020, 1, 2)) == "2020-01-02"
  {
    RenderLiteral("2020-01-02", Date(2020, 1, 2));
  }

  lemma MonthFirstWins()
    ensures FirstParse("01/02/2020", 0) == Some((2, Date(2020, 1, 2)))
  {
    var s := "01/02/2020";
    SlashNoYear(s);
    MonthFirstParsed();
    FirstParseSkip(s, 0);
    FirstParseSkip(s, 1);
    FirstParseHit(s, 2);
  }

  /** A string whose third character is `/` has no four-digit year in front. */
  lemma SlashNoYear(s: string)
    requires |s| >= 4 && s[2] == '/'
    ensures Strptime(Formats[0], s).None? && Strptime(Formats[1], s).None?
  {
    assert s[..4][2] == '/';
    assert YearField(s) == None;
    ParseFails(Formats[0], s, Defaults);
    ParseFails(Formats[1], s, Defaults);
  }

  lemma MonthFirstParsed()
    ensures Strptime(Formats[2], "01/02/2020") == Some(Date(2020, 1, 2))
  {
    var s := "01/02/2020";
    var fmt := Formats[2];
    assert MonthField(s) == Some(Match(1, 2));
    assert s[2..] == "/02/2020";
    assert "/02/2020"[1..] == "02/2020";
    assert DayField("02/2020") == Some(Match(2, 2));
    assert "02/2020"[2..] == "/2020";
    assert "/2020"[1..] == "2020";
    FourDigitsValue("2020");
    assert "2020"[..4] == "2020" && "2020"[4..] == "";
    var f := Defaults.(month := 1).(day := 2).(year := 2020);
    assert ParseFrom(fmt[4..], "2020", Defaults.(month := 1).(day := 2)) == Some(f);
    assert ParseFrom(fmt[2..], "02/2020", Defaults.(month := 1)) == Some(f);
    assert ParseFrom(fmt[1..], "/02/2020", Defaults.(month := 1)) == Some(f);
    assert ParseFrom(fmt, s, Defaults) == Some(f);
  }

  /** A first number above 12 cannot be a month, so the day-first pattern reads it. */
  lemma ExampleDayFirst(clock: Clock)
    ensures NormalizeDate(Str("13/02/2020"), clock) == Str("2020-02-13")
  {
    DayFirstWins();
    DayFirstRendered();
  }

  lemma DayFirstRendered()
    ensures Render(Date(2020, 2, 13)) == "2020-02-13"
  {
    RenderLiteral("2020-02-13", Date(2020, 2, 13));
  }

  lemma DayFirstWins()
    ensures FirstParse("13/02/2020", 0) == Some((3, Date(2020, 2, 13)))
  {
    var s := "13/02/2020";
    SlashNoYear(s);
    DayFirstNoMonth(s);
    DayFirstParsed();
    FirstParseSkip(s, 0);
    FirstParseSkip(s, 1);
    FirstParseSkip(s, 2);
    FirstParseHit(s, 3);
  }

  /** `13` is no month: `%m` reads only the `1`, and the `3` is not the `/` that must follow. */
  lemma DayFirstNoMonth(s: string)
    requires s == "13/02/2020"
    ensures Strptime(Formats[2], s).None?
  {
    assert MonthField(s) == Some(Match(1, 1));
    assert s[1..][0] == '3';
    assert MatchDirective(Lit('/'), s[1..]) == None;
    SecondFails(Formats[2], s, Match(1, 1));
  }

  lemma DayFirstParsed()
    ensures Strptime(Formats[3], "13/02/2020") == Some(Date(2020, 2, 13))
  {
    var s := "13/02/2020";
    var fmt := Formats[3];
    assert DayField(s) == Some(Match(13, 2));
    assert s[2..] == "/02/2020";
    assert "/02/2020"[1..] == "02/2020";
    assert MonthField("02/2020") == Some(Match(2, 2));
    assert "02/2020"[2..] == "/2020";
    assert "/2020"[1..] == "2020";
    FourDigitsValue("2020");
    assert "2020"[..4] == "2020" && "2020"[4..] == "";
    var f := Defaults.(day := 13).(month := 2).(year := 2020);
    assert ParseFrom(fmt[4..], "2020", Defaults.(day := 13).(month := 2)) == Some(f);
    assert ParseFrom(fmt[2..], "02/2020", Defaults.(day := 13)) == Some(f);
    assert ParseFrom(fmt[1..], "/02/2020", Defaults.(day := 13)) == Some(f);
    assert ParseFrom(fmt, s, Defaults) == Some(f);
  }

  /** The spreadsheet form DD.MM.YYYY. */
  lemma ExampleDotted(clock: Clock)
    ensures NormalizeDate(Str("15.03.2021"), clock) == Str("2021-03-15")
  {
    DottedWins();
    DottedRendered();
  }

  lemma DottedRendered()
    ensures Render(Date(2021, 3, 15)) == "2021-03-15"
  {
    RenderLiteral("2021-03-15", Date(2021, 3, 15));
  }

  lemma DottedWins()
    ensures FirstParse("15.03.2021", 0) == Some((4, Date(2021, 3, 15)))
  {
    var s := "15.03.2021";
    DottedNoYear(s);
    DottedNoMonthFirst(s);
    DottedNoSlashDay(s);
    DottedParsed();
    FirstParseSkip(s, 0);
    FirstParseSkip(s, 1);
    FirstParseSkip(s, 2);
    FirstParseSkip(s, 3);
    FirstParseHit(s, 4);
  }

  lemma DottedNoYear(s: string)
    requires s == "15.03.2021"
    ensures Strptime(Formats[0], s).None? && Strptime(Formats[1], s).None?
  {
    assert s[..4][2] == '.';
    assert YearField(s) == None;
    ParseFails(Formats[0], s, Defaults);
    ParseFails(Formats[1], s, Defaults);
  }

  lemma DottedNoMonthFirst(s: string)
    requires s == "15.03.2021"
    ensures Strptime(Formats[2], s).None?
  {
    assert MonthField(s) == Some(Match(1, 1));
    assert s[1..][0] == '5';
    assert MatchDirective(Lit('/'), s[1..]) == None;
    SecondFails(Formats[2], s, Match(1, 1));
  }

  lemma DottedNoSlashDay(s: string)
    requires s == "15.03.2021"
    ensures Strptime(Formats[3], s).None?
  {
    assert DayField(s) == Some(Match(15, 2));
    assert s[2..][0] == '.';
    assert MatchDirective(Lit('/'), s[2..]) == None;
    SecondFails(Formats[3], s, Match(15, 2));
  }

  lemma DottedParsed()
    ensures Strptime(Formats[4], "15.03.2021") == Some(Date(2021, 3, 15))
  {
    var s := "15.03.2021";
    var fmt := Formats[4];
    assert DayField(s) == Some(Match(15, 2));
    assert s[2..] == ".03.2021";
    assert ".03.2021"[1..] == "03.2021";
    assert MonthField("03.2021") == Some(Match(3, 2));
    assert "03.2021"[2..] == ".2021";
    assert ".2021"[1..] == "2021";
    FourDigitsValue("2021");
    assert "2021"[..4] == "2021" && "2021"[4..] == "";
    var f := Defaults.(day := 15).(month := 3).(year := 2021);
    assert ParseFrom(fmt[4..], "2021", Defaults.(day := 15).(month := 3)) == Some(f);
    assert ParseFrom(fmt[2..], "03.2021", Defaults.(day := 15)) == Some(f);
    assert ParseFrom(fmt[1..], ".03.2021", Defaults.(day := 15)) == Some(f);
    assert ParseFrom(fmt, s, Defaults) == Some(f);
  }

  /** A pattern that rejects passes the search on to the next one. */
  lemma FirstParseSkip(s: string, k: nat)
    requires k < |Formats| && Strptime(Formats[k], s).None?
    ensures FirstParse(s, k) == FirstParse(s, k + 1)
  {
  }

  /** The search stops at a pattern that accepts. */
  lemma FirstParseHit(s: string, k: nat)
    requires k < |Formats| && Strptime(Formats[k], s).Some?
    ensures FirstParse(s, k) == Some((k, Strptime(Formats[k], s).value))
  {
  }

  /** A literal ISO string is the rendering of the day its digits spell. */
  lemma RenderLiteral(s: string, d: Date)
    requires |s| == 10 && s[4] == '-' && s[7] == '-'
    requires forall i :: 0 <= i < 10 && i != 4 && i != 7 ==> IsDigit(s[i])
    requires d.year == 1000 * DigitValue(s[0]) + 100 * DigitValue(s[1]) + 10 * DigitValue(s[2]) + DigitValue(s[3])
    requires d.month == 10 * DigitValue(s[5]) + DigitValue(s[6])
    requires d.day == 10 * DigitValue(s[8]) + DigitValue(s[9])
    requires ValidDate(d)
    ensures Render(d) == s
  {
    FourDigitsValue(s);
    TwoDigitsValue(s[5..]);
    assert s[5..][..2] == s[5..7];
    TwoDigitsValue(s[8..]);
    assert s[8..][..2] == s[8..];
    IsoRoundTrip(s);
  }

  /** A timestamp with a trailing `Z` is read by the eighth pattern; the time of day is dropped. */
  lemma ExampleZulu(clock: Clock)
    ensures NormalizeDate(Str("2021-03-15T10:00:00Z"), clock) == Str("2021-03-15")
  {
    ZuluWins();
    DottedRendered();
  }

  lemma ZuluWins()
    ensures FirstParse("2021-03-15T10:00:00Z", 0) == Some((7, Date(2021, 3, 15)))
  {
    ZuluFirstParse("2021-03-15T10:00:00Z");
  }

  lemma ZuluFirstParse(s: string)
    requires s == "2021-03-15T10:00:00Z"
    ensures FirstParse(s, 0) == Some((7, Date(2021, 3, 15)))
  {
    ZuluParsed(s);
    ZuluRejectedLate(s);
    ZuluNoSlashYear(s);
    ZuluNoMonthFirst(s);
    ZuluNoDayFirst(s);
    FirstParseSkip(s, 0);
    FirstParseSkip(s, 1);
    FirstParseSkip(s, 2);
    FirstParseSkip(s, 3);
    FirstParseSkip(s, 4);
    FirstParseSkip(s, 5);
    FirstParseSkip(s, 6);
    FirstParseHit(s, 7);
  }

  lemma ZuluNoSlashYear(s: string)
    requires s == "2021-03-15T10:00:00Z"
    ensures Strptime(Formats[1], s).None?
  {
    ZuluYear(s);
    assert s[4..][0] == '-';
    SecondFails(Formats[1], s, Match(2021, 4));
  }

  lemma ZuluNoMonthFirst(s: string)
    requires s == "2021-03-15T10:00:00Z"
    ensures Strptime(Formats[2], s).None?
  {
    assert MonthField(s) == Some(Match(2, 1));
    assert s[1..][0] == '0';
    SecondFails(Formats[2], s, Match(2, 1));
  }

  lemma ZuluNoDayFirst(s: string)
    requires s == "2021-03-15T10:00:00Z"
    ensures Strptime(Formats[3], s).None? && Strptime(Formats[4], s).None? && Strptime(Formats[5], s).None?
  {
    assert DayField(s) == Some(Match(20, 2));
    assert s[2..][0] == '2';
    SecondFails(Formats[3], s, Match(20, 2));
    SecondFails(Formats[4], s, Match(20, 2));
    SecondFails(Formats[5], s, Match(20, 2));
  }

  lemma ZuluYear(s: string)
    requires s == "2021-03-15T10:00:00Z"
    ensures YearField(s) == Some(Match(2021, 4))
  {
    FourDigitsValue(s);
  }

  lemma ZuluRejectedLate(s: string)
    requires s == "2021-03-15T10:00:00Z"
    ensures Strptime(Formats[0], s).None?
    ensures Strptime(Formats[6], s).None?
  {
    ZuluSplit(s);
    ZuluDateOnly(s);
    ZuluNoZ(s);
  }

  lemma ZuluSplit(s: string)
    requires s == "2021-03-15T10:00:00Z"
    ensures IsIsoDate("2021-03-15") && IsoDate("2021-03-15") == Date(2021, 3, 15)
    ensures s == "2021-03-15" + "T10:00:00" + "Z"
  {
    DottedRendered();
    RenderIso(Date(2021, 3, 15));
    ZuluConcat(s);
  }

  lemma RenderIso(d: CalendarDate)
    ensures IsIsoDate(Render(d)) && IsoDate(Render(d)) == d
  {
  }

  lemma ZuluConcat(s: string)
    requires s == "2021-03-15T10:00:00Z"
    ensures s == "2021-03-15" + "T10:00:00" + "Z"
  {
  }

  lemma ZuluDateOnly(s: string)
    requires IsIsoDate("2021-03-15") && IsoDate("2021-03-15") == Date(2021, 3, 15)
    requires s == "2021-03-15" + "T10:00:00" + "Z"
    ensures Strptime(Formats[0], s).None?
  {
    IsoHeadParses("2021-03-15", "T10:00:00Z", []);
    assert IsoHead + [] == Formats[0];
  }

  lemma ZuluNoZ(s: string)
    requires IsIsoDate("2021-03-15") && IsoDate("2021-03-15") == Date(2021, 3, 15)
    requires s == "2021-03-15" + "T10:00:00" + "Z"
    ensures Strptime(Formats[6], s).None?
  {
    assert s == "2021-03-15" + "T10:00:00Z";
    IsoHeadParses("2021-03-15", "T10:00:00Z", TimeTail);
    assert IsoHead + TimeTail == Formats[6];
    var f := Defaults.(year := 2021).(month := 3).(day := 15);
    TimeTailParses("Z", [], f);
    assert TimeTail + [] == TimeTail && "T10:00:00" + "Z" == "T10:00:00Z";
    assert ParseFrom([], "Z", f.(hour := 10).(minute := 0).(second := 0)).None?;
    assert ParseFrom(Formats[6], s, Defaults).None?;
  }

  lemma ZuluParsed(s: string)
    requires s == "2021-03-15T10:00:00Z"
    ensures Strptime(Formats[7], s) == Some(Date(2021, 3, 15))
  {
    ZuluSplit(s);
    ZuluWithZ(s);
  }

  lemma ZuluWithZ(s: string)
    requires IsIsoDate("2021-03-15") && IsoDate("2021-03-15") == Date(2021, 3, 15)
    requires s == "2021-03-15" + "T10:00:00" + "Z"
    ensures Strptime(Formats[7], s) == Some(Date(2021, 3, 15))
  {
    ZuluTimeParses("2021-03-15", s);
    assert ValidDate(Date(2021, 3, 15));
  }

  /** The eighth pattern reads an ISO date followed by `T10:00:00Z`. */
  lemma ZuluTimeParses(date: string, s: string)
    requires IsIsoDate(date) && s == date + "T10:00:00" + "Z"
    ensures ParseFrom(Formats[7], s, Defaults)
         == Some(Defaults.(year := IsoDate(date).year).(month := IsoDate(date).month).(day := IsoDate(date).day)
                         .(hour := 10).(minute := 0).(second := 0))
  {
    ZuluPieces(date, s);
    IsoHeadParses(date, "T10:00:00Z", TimeTail + [Lit('Z')]);
    var f := Defaults.(year := IsoDate(date).year).(month := IsoDate(date).month).(day := IsoDate(date).day);
    TimeTailParses("Z", [Lit('Z')], f);
    ZuluTail(f.(hour := 10).(minute := 0).(second := 0));
  }

  lemma ZuluPieces(date: string, s: string)
    requires s == date + "T10:00:00" + "Z"
    ensures s == date + "T10:00:00Z" && "T10:00:00Z" == "T10:00:00" + "Z"
    ensures Formats[7] == IsoHead + (TimeTail + [Lit('Z')])
  {
  }

  lemma ZuluTail(g: Fields)
    ensures ParseFrom([Lit('Z')], "Z", g) == Some(g)
  {
    assert "Z"[1..] == "";
  }

  // ---------------------------------------------------------------------------
  // the normaliser as written, with the exceptions that escape it

  /** The exceptions `float(v)` and `datetime.fromtimestamp` raise on bad or out-of-range input. */
  datatype PyError = ValueError | TypeError | OSError | OverflowError

  /** The timestamp conversion with its failures kept apart: a local date, or the exception raised. */
  datatype Conversion = Converted(date: CalendarDate) | Raises(error: PyError)

  type RawClock = Value -> Conversion

  /** A call that either returns a value or lets an exception propagate to its caller. */
  datatype Outcome = Returns(value: Value) | Escapes(error: PyError)

  /** The clock the normaliser would see if it caught every exception of the conversion. */
  function Caught(raw: RawClock): (c: Clock)
  {
    v => if raw(v).Converted? then Some(raw(v).date) else None
  }

  /** The string branch's handler names ValueError and TypeError only. */
  predicate CaughtForString(e: PyError) {
    e == ValueError || e == TypeError
  }

  /** The numeric branch's handler names ValueError and OSError only. */
  predicate CaughtForNumber(e: PyError) {
    e == ValueError || e == OSError
  }

  /**
   `_normalize_date` exactly as written: an exception of the conversion that the branch's
   handler does not name propagates. Whenever it returns, it returns what `NormalizeDate`
   returns with every exception caught.
   */
  function NormalizeDateAsWritten(v: Value, raw: RawClock): (r: Outcome)
    ensures r.Escapes? <==>
              ((v.Str? && FirstParse(v.s, 0).None? && raw(v).Raises? && !CaughtForString(raw(v).error))
               || ((v.Int? || v.Bool?) && raw(v).Raises? && !CaughtForNumber(raw(v).error)))
    ensures r.Escapes? ==> r.error == raw(v).error
    ensures r.Returns? ==> r.value == NormalizeDate(v, Caught(raw))
  {
    match v
    case Str(s) =>
      (match FirstParse(s, 0)
       case Some(hit) => Returns(Str(Render(hit.1)))
       case None =>
         match raw(v)
         case Converted(d) => Returns(Str(Render(d)))
         case Raises(e) => if CaughtForString(e) then Returns(Null) else Escapes(e))
    case Int(_) => NumberAsWritten(v, raw)
    case Bool(_) => NumberAsWritten(v, raw)
    case _ => Returns(Null)
  }

  function NumberAsWritten(v: Value, raw: RawClock): (r: Outcome)
  {
    match raw(v)
    case Converted(d) => Returns(Str(Render(d)))
    case Raises(e) => if CaughtForNumber(e) then Returns(Null) else Escapes(e)
  }

  /**
   The corrected normaliser, `NormalizeDate` over the fully caught clock, never raises: for
   every input and every behaviour of the conversion it returns None or an ISO date, and
   it differs from the code as written only where the code lets an exception escape.
   */
  lemma CorrectedNeverRaises(v: Value, raw: RawClock)
    ensures var r := NormalizeDate(v, Caught(raw));
            r == Null || (r.Str? && IsIsoDate(r.s))
    ensures NormalizeDateAsWritten(v, raw).Escapes? ==> NormalizeDate(v, Caught(raw)) == Null
  {
  }

  /** An integer timestamp too large for the platform, such as 10**20, escapes as OverflowError. */
  lemma HugeTimestampEscapes(raw: RawClock, n: int)
    requires n == 100_000_000_000_000_000_000 && raw(Int(n)) == Raises(OverflowError)
    ensures NormalizeDateAsWritten(Int(n), raw) == Escapes(OverflowError)
    ensures NormalizeDate(Int(n), Caught(raw)) == Null
  {
  }

  /** A string that no format accepts and whose timestamp overflows, such as "inf", escapes too. */
  lemma InfiniteTimestampEscapes(raw: RawClock, s: string)
    requires s == "inf" && raw(Str(s)) == Raises(OverflowError)
    ensures NormalizeDateAsWritten(Str(s), raw) == Escapes(OverflowError)
    ensures NormalizeDate(Str(s), Caught(raw)) == Null
  {
    NoFormatAcceptsInf(s);
  }

  /** No month name or abbreviation starts with the character `c`, in any case. */
  lemma {:induction false} NameFieldNone(t: string, names: seq<string>, k: nat)
    requires k <= |names| && |t| > 0
    requires forall j :: k <= j < |names| ==> |names[j]| > 0 && names[j][0] != LowerChar(t[0])
    ensures NameField(t, names, k).None?
    decreases |names| - k
  {
    if k < |names| {
      if 0 < |names[k]| <= |t| {
        assert Lower(t[..|names[k]|])[0] == LowerChar(t[0]);
      }
      NameFieldNone(t, names, k + 1);
    }
  }

  /** A pattern whose first directive does not match never accepts. */
  lemma FirstDirectiveFails(fmt: seq<Directive>, s: string)
    requires |fmt| > 0 && MatchDirective(fmt[0], s).None?
    ensures Strptime(fmt, s).None?
  {
  }

  /** Every pattern starts with a numeric field or a month name, and "inf" fits none of them. */
  lemma NoFormatAcceptsInf(s: string)
    requires s == "inf"
    ensures FirstParse(s, 0).None?
  {
    assert s[0] == 'i' && LowerChar(s[0]) == 'i';
    NameFieldNone(s, MonthNames, 0);
    NameFieldNone(s, MonthAbbrevs, 0);
    forall i | 0 <= i < |Formats|
      ensures Strptime(Formats[i], s).None?
    {
      FirstDirectiveFails(Formats[i], s);
    }
  }
}
