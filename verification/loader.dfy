/**
 The pure part of the spreadsheet loader (`StaticDataLoader`, static_data_loader.py):
 how the header row of a sheet is found and named, which rows become records, how a
 record's keys are normalised, and how `max_records` truncates the result.

 A sheet is a rectangular grid of cells as xlrd reports them: text, or a number whose
 value is integral. Reading the workbook file is not modelled; the grid is the input.
 */
module Loader {
  import opened Wrappers
  import opened Values
  import opened Text
  import opened Strings

  // ---------------------------------------------------------------------------
  // cells and sheets

  /** A cell value: text (the empty string for a blank cell), or an integral number. */
  datatype Cell = Text(s: string) | Number(n: int)

  /** `nrows` rows of `ncols` cells each; a sheet without rows has no columns. */
  datatype Sheet = Sheet(rows: seq<seq<Cell>>, ncols: nat)

  predicate WellFormed(sheet: Sheet) {
    && (forall i :: 0 <= i < |sheet.rows| ==> |sheet.rows[i]| == sheet.ncols)
    && (|sheet.rows| == 0 ==> sheet.ncols == 0)
  }

  /** `str(cell_value)`: text as it is, a number as Python prints an integral float. */
  function CellString(c: Cell): string {
    match c
    case Text(s) => s
    case Number(n) => IntToString(n) + ".0"
  }

  /** `cell_value and str(cell_value).strip()`: truthy, and not blank once printed. */
  predicate Filled(c: Cell) {
    match c
    case Text(s) => s != "" && Strip(s) != ""
    case Number(n) => n != 0 && Strip(CellString(c)) != ""
  }

  /** The number of filled cells of a row. */
  function CountFilled(row: seq<Cell>): (n: nat)
    ensures n <= |row|
    decreases |row|
  {
    if |row| == 0 then 0
    else
      assert forall i :: 1 <= i < |row| ==> row[i] == row[1..][i - 1];
      (if Filled(row[0]) then 1 else 0) + CountFilled(row[1..])
  }

  /** A row counts no filled cell exactly when none of its cells is filled. */
  lemma {:induction false} CountFilledZero(row: seq<Cell>)
    ensures CountFilled(row) == 0 <==> forall i :: 0 <= i < |row| ==> !Filled(row[i])
    decreases |row|
  {
    if |row| > 0 {
      CountFilledZero(row[1..]);
      TailIndex(row);
    }
  }

  lemma TailIndex<T>(s: seq<T>)
    requires |s| > 0
    ensures forall i :: 1 <= i < |s| ==> s[i] == s[1..][i - 1]
  {
  }

  // ---------------------------------------------------------------------------
  // header row (static_data_loader.py:105-116)

  /** Only the first ten rows are searched for a header. */
  const HeaderSearchRows: nat := 10

  /** A header row has at least three filled cells. */
  const HeaderMinFilled: nat := 3

  function SearchLimit(rows: seq<seq<Cell>>): (n: nat)
    ensures n <= |rows| && n <= HeaderSearchRows
    ensures n == |rows| || n == HeaderSearchRows
  {
    if |rows| < HeaderSearchRows then |rows| else HeaderSearchRows
  }

  predicate LooksLikeHeader(row: seq<Cell>) {
    CountFilled(row) >= HeaderMinFilled
  }

  /** The first header-like row at or after `i` within the search limit. */
  function FindHeader(rows: seq<seq<Cell>>, i: nat): (r: Option<nat>)
    requires i <= SearchLimit(rows)
    ensures r.None? <==> forall j :: i <= j < SearchLimit(rows) ==> !LooksLikeHeader(rows[j])
    ensures r.Some? ==> i <= r.value < SearchLimit(rows) && LooksLikeHeader(rows[r.value])
                        && forall j :: i <= j < r.value ==> !LooksLikeHeader(rows[j])
    decreases SearchLimit(rows) - i
  {
    if i == SearchLimit(rows) then None
    else if LooksLikeHeader(rows[i]) then Some(i)
    else FindHeader(rows, i + 1)
  }

  /** The header row: the first of the first ten rows with three filled cells, else row 0. */
  function HeaderRow(rows: seq<seq<Cell>>): (h: nat)
    ensures |rows| > 0 ==> h < |rows|
  {
    match FindHeader(rows, 0)
    case Some(h) => h
    case None => 0
  }

  /**
   The header row is the first of the first ten rows with at least three filled cells;
   when there is none, it is row 0.
   */
  lemma HeaderRowFirst(rows: seq<seq<Cell>>)
    ensures (exists j :: 0 <= j < SearchLimit(rows) && LooksLikeHeader(rows[j])) ==>
              var h := HeaderRow(rows);
              h < SearchLimit(rows) && LooksLikeHeader(rows[h]) && forall j :: 0 <= j < h ==> !LooksLikeHeader(rows[j])
    ensures (forall j :: 0 <= j < SearchLimit(rows) ==> !LooksLikeHeader(rows[j])) ==> HeaderRow(rows) == 0
  {
  }

  /**
   A row added at the bottom changes the search only when nothing was found before it,
   it is among the first ten rows, and it looks like a header.
   */
  lemma {:induction false} FindHeaderAppend(rows: seq<seq<Cell>>, extra: seq<Cell>, i: nat)
    requires i <= SearchLimit(rows)
    ensures i <= SearchLimit(rows + [extra])
    ensures FindHeader(rows + [extra], i)
         == if FindHeader(rows, i).Some? then FindHeader(rows, i)
            else if |rows| < HeaderSearchRows && LooksLikeHeader(extra) then Some(|rows|)
            else None
    decreases SearchLimit(rows) - i
  {
    var more := rows + [extra];
    SearchLimitAppend(rows, extra);
    if i < SearchLimit(rows) {
      assert more[i] == rows[i];
      FindHeaderAppend(rows, extra, i + 1);
      FindHeaderStep(rows, i);
      FindHeaderStep(more, i);
    } else if |rows| < HeaderSearchRows {
      assert more[|rows|] == extra;
      FindHeaderStep(more, i);
      FindHeaderEnd(more, i + 1);
      FindHeaderEnd(rows, i);
    } else {
      FindHeaderEnd(more, i);
      FindHeaderEnd(rows, i);
    }
  }

  lemma SearchLimitAppend(rows: seq<seq<Cell>>, extra: seq<Cell>)
    ensures SearchLimit(rows + [extra]) == if |rows| < HeaderSearchRows then |rows| + 1 else HeaderSearchRows
  {
  }

  lemma FindHeaderStep(rows: seq<seq<Cell>>, i: nat)
    requires i < SearchLimit(rows)
    ensures FindHeader(rows, i) == if LooksLikeHeader(rows[i]) then Some(i) else FindHeader(rows, i + 1)
  {
  }

  lemma FindHeaderEnd(rows: seq<seq<Cell>>, i: nat)
    requires i == SearchLimit(rows)
    ensures FindHeader(rows, i) == None
  {
  }

  /** A row that does not look like a header, added at the bottom, leaves the header row where it was. */
  lemma HeaderRowAppend(rows: seq<seq<Cell>>, extra: seq<Cell>)
    requires FindHeader(rows, 0).Some? || |rows| >= HeaderSearchRows || !LooksLikeHeader(extra)
    ensures HeaderRow(rows + [extra]) == HeaderRow(rows)
  {
    FindHeaderAppend(rows, extra, 0);
  }

  // ---------------------------------------------------------------------------
  // header names (static_data_loader.py:120-126)

  /** `f"Column_{col_idx}"` */
  function ColumnName(col: nat): string {
    "Column_" + NatToString(col)
  }

  /** A filled header cell gives its printed, stripped text; any other cell its column name. */
  function HeaderName(c: Cell, col: nat): (r: string)
    ensures r != ""
    ensures Filled(c) ==> r == Strip(CellString(c))
    ensures !Filled(c) ==> r == ColumnName(col)
  {
    var name := if Truthy(CellValue(c)) then Strip(CellString(c)) else ColumnName(col);
    if name == "" then ColumnName(col) else name
  }

  /** One name per column, read from the header row. */
  function Headers(sheet: Sheet): (r: seq<string>)
    requires WellFormed(sheet)
    ensures |r| == sheet.ncols
    ensures forall i :: 0 <= i < |r| ==> r[i] != ""
    ensures |sheet.rows| > 0 ==> forall i :: 0 <= i < |r| ==> r[i] == HeaderName(sheet.rows[HeaderRow(sheet.rows)][i], i)
  {
    if |sheet.rows| == 0 then []
    else
      var row := sheet.rows[HeaderRow(sheet.rows)];
      seq(sheet.ncols, i requires 0 <= i < sheet.ncols => HeaderName(row[i], i))
  }

  // ---------------------------------------------------------------------------
  // rows as dicts (static_data_loader.py:130-146)

  /** The value a cell contributes to a record: an integral number as an int, a blank as None. */
  function CellValue(c: Cell): (v: Value)
    ensures v == Null <==> c == Text("")
  {
    match c
    case Number(n) => Int(n)
    case Text(s) => if s == "" then Null else Str(s)
  }

  /**
   A Python dict: its keys in insertion order, and the value of each. Assigning to a key
   that is already there keeps its position and replaces its value.
   */
  datatype Dict = Dict(keys: seq<string>, vals: map<string, Value>)

  predicate Distinct(s: seq<string>) {
    forall i, j :: 0 <= i < j < |s| ==> s[i] != s[j]
  }

  /** Each key listed once, and the listed keys are exactly the keys that have values. */
  predicate ValidDict(d: Dict) {
    && Distinct(d.keys)
    && (forall k :: k in d.vals ==> k in d.keys)
    && (forall k :: k in d.keys ==> k in d.vals)
  }

  /** `d[k] = v` */
  function Put(d: Dict, k: string, v: Value): (r: Dict)
    requires ValidDict(d)
    ensures ValidDict(r)
    ensures r.vals == d.vals[k := v]
    ensures k in d.vals ==> r.keys == d.keys
    ensures k !in d.vals ==> r.keys == d.keys + [k]
  {
    if k in d.vals then Dict(d.keys, d.vals[k := v])
    else Dict(d.keys + [k], d.vals[k := v])
  }

  /** `record[headers[c]] = value` for the first `c` columns, left to right. */
  function RowDict(headers: seq<string>, row: seq<Cell>, c: nat): (d: Dict)
    requires |headers| == |row| && c <= |row|
    ensures ValidDict(d)
    ensures forall k :: k in d.vals <==> k in headers[..c]
    decreases c
  {
    if c == 0 then Dict([], map[])
    else
      assert headers[..c] == headers[..c - 1] + [headers[c - 1]];
      Put(RowDict(headers, row, c - 1), headers[c - 1], CellValue(row[c - 1]))
  }

  /** Where headers repeat, the last column of that name supplies the value. */
  lemma {:induction false} RowDictLastColumnWins(headers: seq<string>, row: seq<Cell>, c: nat, i: nat)
    requires |headers| == |row| && i < c <= |row|
    requires forall j :: i < j < c ==> headers[j] != headers[i]
    ensures RowDict(headers, row, c).vals[headers[i]] == CellValue(row[i])
    decreases c
  {
    var m := RowDict(headers, row, c - 1).vals;
    assert RowDict(headers, row, c).vals == m[headers[c - 1] := CellValue(row[c - 1])];
    if i < c - 1 {
      assert headers[c - 1] != headers[i];
      RowDictLastColumnWins(headers, row, c - 1, i);
      assert headers[i] in m && m[headers[i]] == CellValue(row[i]);
    }
  }

  /** The distinct elements of a sequence, each where it first appears (`dict.fromkeys`). */
  function Dedup(s: seq<string>): (r: seq<string>)
    ensures Distinct(r)
    ensures forall x :: x in r <==> x in s
    decreases |s|
  {
    if |s| == 0 then []
    else
      var n := |s| - 1;
      var p := Dedup(s[..n]);
      assert s == s[..n] + [s[n]];
      if s[n] in p then p else p + [s[n]]
  }

  /** The keys of a row's dict are the distinct headers, in the order each first appears. */
  lemma {:induction false} RowDictKeys(headers: seq<string>, row: seq<Cell>, c: nat)
    requires |headers| == |row| && c <= |row|
    ensures RowDict(headers, row, c).keys == Dedup(headers[..c])
    decreases c
  {
    if c > 0 {
      RowDictKeys(headers, row, c - 1);
      var k := headers[c - 1];
      PrefixStep(headers, c);
      DedupUnfold(headers[..c]);
      RowDictHas(headers, row, c - 1, k);
      DedupHas(headers[..c - 1], k);
    }
  }

  lemma PrefixStep(s: seq<string>, c: nat)
    requires 0 < c <= |s|
    ensures s[..c][..c - 1] == s[..c - 1] && s[..c][c - 1] == s[c - 1]
  {
  }

  lemma DedupUnfold(s: seq<string>)
    requires |s| > 0
    ensures var p := Dedup(s[..|s| - 1]);
      Dedup(s) == if s[|s| - 1] in p then p else p + [s[|s| - 1]]
  {
  }

  lemma RowDictHas(headers: seq<string>, row: seq<Cell>, c: nat, k: string)
    requires |headers| == |row| && c <= |row|
    ensures k in RowDict(headers, row, c).vals <==> k in headers[..c]
  {
  }

  lemma DedupHas(s: seq<string>, x: string)
    ensures x in Dedup(s) <==> x in s
  {
  }

  /** A record of one row: every header becomes a key. */
  predicate RowShaped(d: Dict, headers: seq<string>) {
    && ValidDict(d)
    && (forall k :: k in d.vals ==> k in headers)
    && (forall k :: k in headers ==> k in d.vals)
  }

  /** Every row has `n` cells. */
  predicate Width(rows: seq<seq<Cell>>, n: nat) {
    forall i :: 0 <= i < |rows| ==> |rows[i]| == n
  }

  lemma WidthTail(rows: seq<seq<Cell>>, n: nat)
    requires Width(rows, n) && |rows| > 0
    ensures |rows[0]| == n && Width(rows[1..], n)
  {
    assert forall i :: 1 <= i < |rows| ==> rows[i] == rows[1..][i - 1];
  }

  lemma WidthConcat(a: seq<seq<Cell>>, b: seq<seq<Cell>>, n: nat)
    requires Width(a, n) && Width(b, n)
    ensures Width(a + b, n)
  {
  }

  /** The rows of a suffix are blank exactly when the original rows from that point are. */
  lemma BlankSuffix(rows: seq<seq<Cell>>, k: nat)
    requires k <= |rows|
    ensures (forall i :: 0 <= i < |rows[k..]| ==> CountFilled(rows[k..][i]) == 0)
            <==> (forall j :: k <= j < |rows| ==> CountFilled(rows[j]) == 0)
  {
    var below := rows[k..];
    if forall i :: 0 <= i < |below| ==> CountFilled(below[i]) == 0 {
      forall j | k <= j < |rows|
        ensures CountFilled(rows[j]) == 0
      {
        assert rows[j] == below[j - k];
      }
    }
    if forall j :: k <= j < |rows| ==> CountFilled(rows[j]) == 0 {
      forall i | 0 <= i < |below|
        ensures CountFilled(below[i]) == 0
      {
        assert below[i] == rows[k + i];
      }
    }
  }

  lemma WidthSuffix(rows: seq<seq<Cell>>, k: nat, n: nat)
    requires Width(rows, n) && k <= |rows|
    ensures Width(rows[k..], n)
  {
    assert forall i :: 0 <= i < |rows| - k ==> rows[k..][i] == rows[k + i];
  }

  /** The records of the rows below the header: blank rows are skipped, the rest become dicts. */
  function DataRows(headers: seq<string>, rows: seq<seq<Cell>>): (r: seq<Dict>)
    requires Width(rows, |headers|)
    ensures |r| <= |rows|
    ensures |r| == 0 <==> forall i :: 0 <= i < |rows| ==> CountFilled(rows[i]) == 0
    ensures forall i :: 0 <= i < |r| ==> RowShaped(r[i], headers)
    decreases |rows|
  {
    if |rows| == 0 then []
    else
      assert forall i :: 1 <= i < |rows| ==> rows[i] == rows[1..][i - 1];
      WidthTail(rows, |headers|);
      var rest := DataRows(headers, rows[1..]);
      if CountFilled(rows[0]) == 0 then rest
      else
        var d := RowDict(headers, rows[0], |headers|);
        assert headers[..|headers|] == headers;
        [d] + rest
  }

  /** Reading rows one after the other reads each block in turn. */
  lemma {:induction false} DataRowsAppend(headers: seq<string>, a: seq<seq<Cell>>, b: seq<seq<Cell>>)
    requires Width(a, |headers|) && Width(b, |headers|)
    ensures Width(a + b, |headers|)
    ensures DataRows(headers, a + b) == DataRows(headers, a) + DataRows(headers, b)
    decreases |a|
  {
    WidthConcat(a, b, |headers|);
    if |a| == 0 {
      EmptyRowsConcat(a, b);
    } else {
      WidthTail(a, |headers|);
      RowsConsTail(a, b);
      DataRowsAppend(headers, a[1..], b);
      DataRowsUnfold(headers, a + b);
      DataRowsUnfold(headers, a);
      var x := if CountFilled(a[0]) == 0 then [] else [RowDict(headers, a[0], |headers|)];
      DictsAssoc(x, DataRows(headers, a[1..]), DataRows(headers, b));
    }
  }

  lemma DictsAssoc(x: seq<Dict>, p: seq<Dict>, q: seq<Dict>)
    ensures x + (p + q) == (x + p) + q
  {
  }

  lemma DataRowsUnfold(headers: seq<string>, rows: seq<seq<Cell>>)
    requires Width(rows, |headers|) && |rows| > 0
    ensures Width(rows[1..], |headers|) && |rows[0]| == |headers|
    ensures DataRows(headers, rows)
         == (if CountFilled(rows[0]) == 0 then [] else [RowDict(headers, rows[0], |headers|)]) + DataRows(headers, rows[1..])
  {
    WidthTail(rows, |headers|);
  }

  lemma EmptyRowsConcat(a: seq<seq<Cell>>, b: seq<seq<Cell>>)
    requires |a| == 0
    ensures a + b == b
  {
  }

  lemma RowsConsTail(a: seq<seq<Cell>>, b: seq<seq<Cell>>)
    requires |a| > 0
    ensures (a + b)[0] == a[0] && (a + b)[1..] == a[1..] + b
  {
  }

  /** A row without a filled cell produces no record; any other row produces exactly one. */
  lemma DataRowsOne(headers: seq<string>, row: seq<Cell>)
    requires |row| == |headers|
    ensures Width([row], |headers|)
    ensures DataRows(headers, [row]) == if CountFilled(row) == 0 then [] else [RowDict(headers, row, |headers|)]
  {
    assert [row][1..] == [];
  }

  /** `_read_xls_with_xlrd`: the records of the rows after the header row. */
  function ReadSheet(sheet: Sheet): (r: seq<Dict>)
    requires WellFormed(sheet)
    ensures |sheet.rows| == 0 ==> r == []
    ensures |sheet.rows| > 0 ==> |r| <= |sheet.rows| - HeaderRow(sheet.rows) - 1
    ensures |sheet.rows| > 0 ==>
              (|r| == 0 <==> forall j :: HeaderRow(sheet.rows) < j < |sheet.rows| ==> CountFilled(sheet.rows[j]) == 0)
    ensures forall i :: 0 <= i < |r| ==> RowShaped(r[i], Headers(sheet))
  {
    if |sheet.rows| == 0 then []
    else
      var h := HeaderRow(sheet.rows);
      var below := sheet.rows[h + 1..];
      WidthSuffix(sheet.rows, h + 1, sheet.ncols);
      BlankSuffix(sheet.rows, h + 1);
      DataRows(Headers(sheet), below)
  }

  /**
   Rows are read one at a time: a row added at the bottom of a sheet, when it does not move
   the header row, adds the record of that row (none for a blank row) after the others.
   */
  lemma ReadSheetAppendRow(sheet: Sheet, extra: seq<Cell>)
    requires WellFormed(sheet) && |sheet.rows| > 0 && |extra| == sheet.ncols
    requires FindHeader(sheet.rows, 0).Some? || |sheet.rows| >= HeaderSearchRows || !LooksLikeHeader(extra)
    ensures WellFormed(Sheet(sheet.rows + [extra], sheet.ncols))
    ensures ReadSheet(Sheet(sheet.rows + [extra], sheet.ncols))
         == ReadSheet(sheet) + if CountFilled(extra) == 0 then [] else [RowDict(Headers(sheet), extra, sheet.ncols)]
  {
    ReadSheetAppended(sheet, extra);
    DataRowsOne(Headers(sheet), extra);
  }

  lemma ReadSheetAppended(sheet: Sheet, extra: seq<Cell>)
    requires WellFormed(sheet) && |sheet.rows| > 0 && |extra| == sheet.ncols
    requires FindHeader(sheet.rows, 0).Some? || |sheet.rows| >= HeaderSearchRows || !LooksLikeHeader(extra)
    ensures WellFormed(Sheet(sheet.rows + [extra], sheet.ncols))
    ensures Width([extra], |Headers(sheet)|)
    ensures ReadSheet(Sheet(sheet.rows + [extra], sheet.ncols)) == ReadSheet(sheet) + DataRows(Headers(sheet), [extra])
  {
    var hs := Headers(sheet);
    var below := sheet.rows[HeaderRow(sheet.rows) + 1..];
    ReadSheetOfAppended(sheet, extra);
    ReadSheetBody(sheet);
    DataRowsAppend(hs, below, [extra]);
  }

  /** What `ReadSheet` reads once a row that keeps the header row is added at the bottom. */
  lemma ReadSheetOfAppended(sheet: Sheet, extra: seq<Cell>)
    requires WellFormed(sheet) && |sheet.rows| > 0 && |extra| == sheet.ncols
    requires FindHeader(sheet.rows, 0).Some? || |sheet.rows| >= HeaderSearchRows || !LooksLikeHeader(extra)
    ensures WellFormed(Sheet(sheet.rows + [extra], sheet.ncols))
    ensures Width(sheet.rows[HeaderRow(sheet.rows) + 1..] + [extra], |Headers(sheet)|)
    ensures ReadSheet(Sheet(sheet.rows + [extra], sheet.ncols))
         == DataRows(Headers(sheet), sheet.rows[HeaderRow(sheet.rows) + 1..] + [extra])
  {
    var more := Sheet(sheet.rows + [extra], sheet.ncols);
    WellFormedAppend(sheet, extra);
    HeaderRowAppend(sheet.rows, extra);
    BelowAppend(sheet.rows, extra, HeaderRow(sheet.rows) + 1);
    HeadersSame(sheet, more);
    ReadSheetBody(more);
  }

  lemma WellFormedAppend(sheet: Sheet, extra: seq<Cell>)
    requires WellFormed(sheet) && |extra| == sheet.ncols && |sheet.rows| > 0
    ensures WellFormed(Sheet(sheet.rows + [extra], sheet.ncols))
  {
  }

  lemma BelowAppend(rows: seq<seq<Cell>>, extra: seq<Cell>, k: nat)
    requires k <= |rows|
    ensures (rows + [extra])[k..] == rows[k..] + [extra]
    ensures k > 0 ==> (rows + [extra])[k - 1] == rows[k - 1]
  {
  }

  /** What `ReadSheet` reads: the rows below the header row, under the header names. */
  lemma ReadSheetBody(sheet: Sheet)
    requires WellFormed(sheet) && |sheet.rows| > 0
    ensures Width(sheet.rows[HeaderRow(sheet.rows) + 1..], |Headers(sheet)|)
    ensures ReadSheet(sheet) == DataRows(Headers(sheet), sheet.rows[HeaderRow(sheet.rows) + 1..])
  {
    WidthSuffix(sheet.rows, HeaderRow(sheet.rows) + 1, sheet.ncols);
  }

  /** Two sheets with the same width and the same header row have the same header names. */
  lemma HeadersSame(a: Sheet, b: Sheet)
    requires WellFormed(a) && WellFormed(b) && a.ncols == b.ncols && |a.rows| > 0 && |b.rows| > 0
    requires a.rows[HeaderRow(a.rows)] == b.rows[HeaderRow(b.rows)]
    ensures Headers(a) == Headers(b)
  {
  }

  /** A blank row is never a record, wherever it is added at the bottom. */
  lemma ReadSheetIgnoresBlankRow(sheet: Sheet, extra: seq<Cell>)
    requires WellFormed(sheet) && |sheet.rows| > 0
    requires |extra| == sheet.ncols && CountFilled(extra) == 0
    ensures WellFormed(Sheet(sheet.rows + [extra], sheet.ncols))
    ensures ReadSheet(Sheet(sheet.rows + [extra], sheet.ncols)) == ReadSheet(sheet)
  {
    assert !LooksLikeHeader(extra);
    ReadSheetAppendRow(sheet, extra);
  }

  /**
   The header row and the rows above it never become records: two sheets that agree on the
   header row's position and on every row from it down read the same records, whatever the
   rows above hold.
   */
  lemma ReadSheetIgnoresAboveHeader(a: Sheet, b: Sheet)
    requires WellFormed(a) && WellFormed(b) && a.ncols == b.ncols && |a.rows| == |b.rows| > 0
    requires HeaderRow(a.rows) == HeaderRow(b.rows)
    requires a.rows[HeaderRow(a.rows)..] == b.rows[HeaderRow(b.rows)..]
    ensures ReadSheet(a) == ReadSheet(b)
  {
    var h := HeaderRow(a.rows);
    assert a.rows[h] == a.rows[h..][0] == b.rows[h..][0] == b.rows[h];
    assert a.rows[h + 1..] == a.rows[h..][1..] == b.rows[h..][1..] == b.rows[h + 1..];
    HeadersSame(a, b);
    ReadSheetBody(a);
    ReadSheetBody(b);
  }

  /** A sheet whose last row is its header row has no records. */
  lemma ReadSheetHeaderOnly(sheet: Sheet)
    requires WellFormed(sheet) && |sheet.rows| > 0
    requires HeaderRow(sheet.rows) == |sheet.rows| - 1
    ensures ReadSheet(sheet) == []
  {
  }

  // ---------------------------------------------------------------------------
  // record formatting (static_data_loader.py:85-96)

  /** What normalisation makes of one character of a stripped key. */
  function KeyChar(c: char): char {
    if c == ' ' || c == '-' then '_' else LowerChar(c)
  }

  /** `str(key).strip().lower().replace(' ', '_').replace('-', '_')`, one character at a time. */
  function NormKey(k: string): (r: string)
    ensures |r| == |Strip(k)|
  {
    var t := Strip(k);
    seq(|t|, i requires 0 <= i < |t| => KeyChar(t[i]))
  }

  /** The character-wise definition is the chain of string methods the loader calls. */
  lemma NormKeySteps(k: string)
    ensures NormKey(k) == ReplaceChar(ReplaceChar(StripLower(k), ' ', '_'), '-', '_')
  {
    var t := Strip(k);
    var l := StripLower(k);
    var a := ReplaceChar(l, ' ', '_');
    var c := ReplaceChar(a, '-', '_');
    var r := NormKey(k);
    assert l == Lower(t);
    assert |r| == |c|;
    forall i | 0 <= i < |t|
      ensures r[i] == c[i]
    {
      assert r[i] == KeyChar(t[i]);
      assert l[i] == LowerChar(t[i]);
      assert a[i] == if l[i] == ' ' then '_' else l[i];
      assert c[i] == if a[i] == '-' then '_' else a[i];
    }
  }

  /** A normalised key has no space, hyphen or upper-case letter, and no whitespace at its ends. */
  lemma NormKeyShape(k: string)
    ensures var r := NormKey(k);
      && (forall i :: 0 <= i < |r| ==> r[i] != ' ' && r[i] != '-' && !('A' <= r[i] <= 'Z'))
      && (|r| > 0 ==> !IsSpace(r[0]) && !IsSpace(r[|r| - 1]))
  {
    var t := Strip(k);
    var r := NormKey(k);
    forall i | 0 <= i < |r|
      ensures r[i] != ' ' && r[i] != '-' && !('A' <= r[i] <= 'Z')
    {
      KeyCharShape(t[i]);
    }
    if |r| > 0 {
      KeyCharShape(t[0]);
      KeyCharShape(t[|t| - 1]);
    }
  }

  lemma KeyCharShape(c: char)
    ensures var d := KeyChar(c); d != ' ' && d != '-' && !('A' <= d <= 'Z')
    ensures !IsSpace(c) ==> !IsSpace(KeyChar(c))
  {
  }

  /** Normalising a normalised key changes nothing. */
  lemma NormKeyIdempotent(k: string)
    ensures NormKey(NormKey(k)) == NormKey(k)
  {
    var r := NormKey(k);
    NormKeyShape(k);
    StrippedIsFixed(r);
    forall i | 0 <= i < |r|
      ensures KeyChar(r[i]) == r[i]
    {
      KeyCharFixed(r[i]);
    }
    NormKeyOfFixed(r);
  }

  lemma KeyCharFixed(c: char)
    requires c != ' ' && c != '-' && !('A' <= c <= 'Z')
    ensures KeyChar(c) == c
  {
  }

  /** A stripped key made of characters normalisation keeps is its own normal form. */
  lemma NormKeyOfFixed(r: string)
    requires Strip(r) == r
    requires forall i :: 0 <= i < |r| ==> KeyChar(r[i]) == r[i]
    ensures NormKey(r) == r
  {
  }

  /** Where an item lands: an NA value under its original key, any other under the normalised key. */
  function Target(k: string, v: Value): string {
    if v == Null then k else NormKey(k)
  }

  /** The key under which the loader keeps the unmodified row. */
  const RawKey: string := "_raw_excel_data"

  /** The items of a dict in insertion order. */
  function Items(d: Dict): (r: seq<(string, Value)>)
    requires ValidDict(d)
    ensures |r| == |d.keys|
    ensures forall i :: 0 <= i < |r| ==> r[i].0 == d.keys[i] && r[i].1 == d.vals[d.keys[i]]
  {
    seq(|d.keys|, i requires 0 <= i < |d.keys| => (d.keys[i], d.vals[d.keys[i]]))
  }

  /** Each item paired with the key it is written under. */
  function Placed(items: seq<(string, Value)>): (r: seq<(string, Value)>)
    ensures |r| == |items|
    ensures forall i :: 0 <= i < |r| ==> r[i].0 == Target(items[i].0, items[i].1) && r[i].1 == items[i].1
  {
    seq(|items|, i requires 0 <= i < |items| => (Target(items[i].0, items[i].1), items[i].1))
  }

  /** No pair after `i` and before `n` has the key of pair `i`. */
  predicate LastOfKey(pairs: seq<(string, Value)>, i: nat, n: nat)
    requires i < n <= |pairs|
  {
    forall j :: i < j < n ==> pairs[j].0 != pairs[i].0
  }

  /** `formatted[k] = v` for the first `n` pairs in turn: a later pair overwrites an earlier one. */
  function Assign(pairs: seq<(string, Value)>, n: nat): (r: Record)
    requires n <= |pairs|
    ensures forall i :: 0 <= i < n ==> pairs[i].0 in r
    ensures forall t :: t in r ==> exists i :: 0 <= i < n && pairs[i].0 == t
    ensures forall i :: 0 <= i < n && LastOfKey(pairs, i, n) ==> r[pairs[i].0] == pairs[i].1
    decreases n
  {
    if n == 0 then map[]
    else
      var r := Assign(pairs, n - 1)[pairs[n - 1].0 := pairs[n - 1].1];
      assert forall i :: 0 <= i < n - 1 && LastOfKey(pairs, i, n) ==> LastOfKey(pairs, i, n - 1);
      r
  }

  /** `_format_record` */
  function FormatRecord(d: Dict): (r: Record)
    requires ValidDict(d)
    ensures RawKey in r && r[RawKey] == Obj(d.vals)
    ensures forall k :: k in d.vals ==> Target(k, d.vals[k]) in r
  {
    var pairs := Placed(Items(d));
    var f := Assign(pairs, |pairs|);
    assert forall k :: k in d.vals ==> Target(k, d.vals[k]) in f by {
      forall k | k in d.vals
        ensures Target(k, d.vals[k]) in f
      {
        var i :| 0 <= i < |d.keys| && d.keys[i] == k;
        assert pairs[i].0 == Target(k, d.vals[k]);
      }
    }
    f[RawKey := Obj(d.vals)]
  }

  /** Besides the raw-data key, a formatted record has only keys that some item lands on. */
  lemma FormatRecordOnlyTargets(d: Dict, t: string)
    requires ValidDict(d) && t in FormatRecord(d) && t != RawKey
    ensures exists k :: k in d.vals && Target(k, d.vals[k]) == t
  {
    var pairs := Placed(Items(d));
    var i :| 0 <= i < |pairs| && pairs[i].0 == t;
    assert d.keys[i] in d.vals && Target(d.keys[i], d.vals[d.keys[i]]) == t;
  }

  /**
   When no other item lands on the same key and it does not land on the raw-data key, an
   item's value is kept: an NA value as None under its own key, the rest under the
   normalised key.
   */
  lemma FormatRecordKeeps(d: Dict, k: string)
    requires ValidDict(d) && k in d.vals
    requires forall k' :: k' in d.vals && k' != k ==> Target(k', d.vals[k']) != Target(k, d.vals[k])
    requires Target(k, d.vals[k]) != RawKey
    ensures FormatRecord(d)[Target(k, d.vals[k])] == d.vals[k]
  {
    var pairs := Placed(Items(d));
    var i :| 0 <= i < |d.keys| && d.keys[i] == k;
    assert LastOfKey(pairs, i, |pairs|) by {
      forall j | i < j < |pairs|
        ensures pairs[j].0 != pairs[i].0
      {
        assert d.keys[j] != k;
      }
    }
  }

  /**
   Where two items land on the same key, the one later in the row wins: with headers
   `Mark Text` and `mark-text` both filled, `mark_text` holds the second value.
   */
  lemma FormatRecordLaterWins(d: Dict, i: nat, j: nat)
    requires ValidDict(d) && i < j < |d.keys|
    requires forall l :: j < l < |d.keys| ==> Target(d.keys[l], d.vals[d.keys[l]]) != Target(d.keys[j], d.vals[d.keys[j]])
    requires Target(d.keys[j], d.vals[d.keys[j]]) != RawKey
    ensures FormatRecord(d)[Target(d.keys[j], d.vals[d.keys[j]])] == d.vals[d.keys[j]]
  {
    var pairs := Placed(Items(d));
    assert LastOfKey(pairs, j, |pairs|);
  }

  /** No whitespace at either end: `strip()` leaves the string as it is. */
  predicate Trimmed(s: string) {
    |s| > 0 ==> !IsSpace(s[0]) && !IsSpace(s[|s| - 1])
  }

  /** Two trimmed keys whose characters normalise alike normalise to the same key. */
  lemma SameKeyChars(a: string, b: string)
    requires Trimmed(a) && Trimmed(b) && |a| == |b|
    requires forall i :: 0 <= i < |a| ==> KeyChar(a[i]) == KeyChar(b[i])
    ensures NormKey(a) == NormKey(b)
  {
    StrippedIsFixed(a);
    StrippedIsFixed(b);
    forall i | 0 <= i < |a|
      ensures NormKey(a)[i] == NormKey(b)[i]
    {
      NormKeyAt(a, i);
      NormKeyAt(b, i);
    }
  }

  /** Header names that differ only in letter case land on the same key. */
  lemma NormKeyIgnoresCase(k: string)
    requires Trimmed(k)
    ensures NormKey(Upper(k)) == NormKey(k)
  {
    var u := Upper(k);
    assert Trimmed(u) by {
      UpperKeepsStripped(k);
    }
    assert forall i :: 0 <= i < |u| ==> KeyChar(u[i]) == KeyChar(k[i]) by {
      forall i | 0 <= i < |u|
        ensures KeyChar(u[i]) == KeyChar(k[i])
      {
        KeyCharUpper(k[i]);
      }
    }
    SameKeyChars(u, k);
  }

  /** A space and a hyphen inside a header name land on the same key. */
  lemma NormKeySpaceHyphen(k: string, i: nat)
    requires Trimmed(k)
    requires 0 < i < |k| - 1 && k[i] == ' '
    ensures NormKey(k[i := '-']) == NormKey(k)
  {
    var h := k[i := '-'];
    assert Trimmed(h) by {
      assert h[0] == k[0] && h[|h| - 1] == k[|k| - 1];
    }
    SameKeyChars(h, k);
  }

  lemma NormKeyAt(k: string, i: nat)
    requires i < |Strip(k)|
    ensures NormKey(k)[i] == KeyChar(Strip(k)[i])
  {
  }

  lemma KeyCharUpper(c: char)
    ensures KeyChar(UpperChar(c)) == KeyChar(c)
  {
  }

  // ---------------------------------------------------------------------------
  // loading (static_data_loader.py:46-59)

  /** `records[:max_records] if max_records else records`, with Python's slice bounds. */
  function Truncate<T>(records: seq<T>, maxRecords: Option<int>): (r: seq<T>)
    ensures |r| <= |records| && r == records[..|r|]
    ensures maxRecords.None? || maxRecords.value == 0 ==> r == records
    ensures maxRecords.Some? && maxRecords.value > 0 ==> |r| == if maxRecords.value < |records| then maxRecords.value else |records|
    ensures maxRecords.Some? && maxRecords.value < 0 ==> |r| == if -maxRecords.value < |records| then |records| + maxRecords.value else 0
  {
    if maxRecords.None? || maxRecords.value == 0 then records
    else
      var m := maxRecords.value;
      var end := if m >= 0 then (if m < |records| then m else |records|)
                 else (if -m < |records| then |records| + m else 0);
      records[..end]
  }

  /** `[_format_record(r) for r in records]` */
  function FormatAll(records: seq<Dict>): (r: seq<Record>)
    requires forall i :: 0 <= i < |records| ==> ValidDict(records[i])
    ensures |r| == |records|
    ensures forall i :: 0 <= i < |r| ==> r[i] == FormatRecord(records[i])
  {
    seq(|records|, i requires 0 <= i < |records| => FormatRecord(records[i]))
  }

  /** The records of a sheet are valid dicts. */
  lemma ReadSheetValid(sheet: Sheet)
    requires WellFormed(sheet)
    ensures forall i :: 0 <= i < |ReadSheet(sheet)| ==> ValidDict(ReadSheet(sheet)[i])
  {
    var read := ReadSheet(sheet);
    forall i | 0 <= i < |read|
      ensures ValidDict(read[i])
    {
      assert RowShaped(read[i], Headers(sheet));
    }
  }

  /** The `.xls` branch of `load_from_excel`: read, truncate, then format each record. */
  function LoadSheet(sheet: Sheet, maxRecords: Option<int>): (r: seq<Record>)
    requires WellFormed(sheet)
    ensures |r| == |Truncate(ReadSheet(sheet), maxRecords)|
    ensures forall i :: 0 <= i < |r| ==> i < |ReadSheet(sheet)| && ValidDict(ReadSheet(sheet)[i])
                                         && r[i] == FormatRecord(ReadSheet(sheet)[i])
  {
    var read := ReadSheet(sheet);
    ReadSheetValid(sheet);
    var records := Truncate(read, maxRecords);
    PrefixValid(read, |records|);
    FormatAll(records)
  }

  lemma PrefixValid(ds: seq<Dict>, n: nat)
    requires n <= |ds| && forall i :: 0 <= i < |ds| ==> ValidDict(ds[i])
    ensures forall i :: 0 <= i < n ==> ValidDict(ds[..n][i]) && ds[..n][i] == ds[i]
  {
  }

  /**
   A positive `max_records` keeps the first records of the unlimited load, as many as it
   says or all of them when there are fewer; without a limit (or with 0) every record is
   loaded.
   */
  lemma LoadSheetLimit(sheet: Sheet, m: int)
    requires WellFormed(sheet) && m > 0
    ensures |LoadSheet(sheet, None)| == |ReadSheet(sheet)|
    ensures LoadSheet(sheet, Some(0)) == LoadSheet(sheet, None)
    ensures var all := LoadSheet(sheet, None);
      LoadSheet(sheet, Some(m)) == all[..if m < |all| then m else |all|]
  {
    var all := LoadSheet(sheet, None);
    var some := LoadSheet(sheet, Some(m));
    var zero := LoadSheet(sheet, Some(0));
    assert |zero| == |all|;
    SameRecords(zero, all);
    var n := if m < |all| then m else |all|;
    assert |some| == n;
    SameRecords(some, all[..n]);
  }

  lemma SameRecords(a: seq<Record>, b: seq<Record>)
    requires |a| == |b| && forall i :: 0 <= i < |a| ==> a[i] == b[i]
    ensures a == b
  {
  }
}
