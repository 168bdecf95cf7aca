/**
 * The spreadsheet address helpers and row transforms of the template converter
 * (FI_convert_template_v_001.py): Excel column letters to indices, range strings to
 * index lists, and the filters that turn pandas rows into plain values.  A pandas row
 * is a sequence of cells, a NaN cell being `None`.
 */
module TemplateConverter {
  import opened Wrappers
  import opened OrderedMaps
  import opened Text
  import opened JsonValues

  // ---------------------------------------------------------------------------
  // excel_column_to_index (lines 119-123)

  /** `ord(c.upper()) - ord('A') + 1`: 1 for "A" or "a" up to 26 for "Z" or "z". */
  function LetterValue(c: char): int
  {
    ToUpperChar(c) as int - 'A' as int + 1
  }

  /** The accumulator `index` after the loop has read all of `s`. */
  function ColumnValue(s: string): int
    decreases |s|
  {
    if s == [] then 0 else ColumnValue(s[..|s| - 1]) * 26 + LetterValue(s[|s| - 1])
  }

  /** What `excel_column_to_index(s)` returns. */
  function ColumnIndex(s: string): int
  {
    ColumnValue(s) - 1
  }

  /** `excel_column_to_index`: one pass over the letters, bijective base 26. */
  method ExcelColumnToIndex(column: string) returns (index: int)
    ensures index == ColumnIndex(column)
  {
    var acc := 0;
    for i := 0 to |column|
      invariant acc == ColumnValue(column[..i])
    {
      assert column[..i + 1][..i] == column[..i];
      acc := acc * 26 + LetterValue(column[i]);
    }
    assert column[..|column|] == column;
    index := acc - 1;
  }

  /** "A" is 0, "Z" is 25, "AA" is 26, lower case reads as upper case, and "" is -1. */
  lemma ColumnIndexExamples()
    ensures ColumnIndex("A") == 0 && ColumnIndex("Z") == 25 && ColumnIndex("AA") == 26
    ensures ColumnIndex("a") == 0 && ColumnIndex("") == -1
  {
    assert "AA"[..1] == "A";
  }

  /** Reading one more letter: the index so far plus one, times 26, plus the letter's offset from "A". */
  lemma ColumnIndexAppend(s: string, c: char)
    ensures ColumnIndex(s + [c]) == (ColumnIndex(s) + 1) * 26 + (ToUpperChar(c) as int - 'A' as int)
  {
    assert (s + [c])[..|s|] == s;
  }

  /** The column letters as `excel_column_to_index` reads them. */
  predicate IsColumnName(s: string)
  {
    forall i :: 0 <= i < |s| ==> IsUpper(s[i])
  }

  /** The letters of a column number (1 for "A"): the inverse of `ColumnValue`. */
  function ColumnName(n: nat): string
    decreases n
  {
    if n == 0 then "" else ColumnName((n - 1) / 26) + [('A' as int + (n - 1) % 26) as char]
  }

  lemma {:induction false} ColumnValueOfName(n: nat)
    ensures IsColumnName(ColumnName(n)) && ColumnValue(ColumnName(n)) == n
    decreases n
  {
    if n > 0 {
      var s := ColumnName((n - 1) / 26);
      var c := ('A' as int + (n - 1) % 26) as char;
      ColumnValueOfName((n - 1) / 26);
      assert (s + [c])[..|s|] == s;
      assert LetterValue(c) == (n - 1) % 26 + 1;
    }
  }

  lemma {:induction false} ColumnNameOfValue(s: string)
    requires IsColumnName(s)
    ensures ColumnValue(s) >= 0 && ColumnName(ColumnValue(s)) == s
    decreases |s|
  {
    if s != [] {
      var n := |s| - 1;
      var v := ColumnValue(s[..n]);
      var d := LetterValue(s[n]);
      ColumnNameOfValue(s[..n]);
      assert 1 <= d <= 26;
      assert ColumnValue(s) - 1 == v * 26 + (d - 1);
      assert (ColumnValue(s) - 1) / 26 == v && (ColumnValue(s) - 1) % 26 == d - 1;
      assert ('A' as int + (d - 1)) as char == s[n];
      assert s[..n] + [s[n]] == s;
    }
  }

  /** Different column names never share an index. */
  lemma ColumnIndexInjective(s: string, t: string)
    requires IsColumnName(s) && IsColumnName(t) && ColumnIndex(s) == ColumnIndex(t)
    ensures s == t
  {
    ColumnNameOfValue(s);
    ColumnNameOfValue(t);
  }

  /** Every index from -1 up is the index of exactly one column name. */
  lemma ColumnIndexOnto(i: int)
    requires i >= -1
    ensures IsColumnName(ColumnName(i + 1)) && ColumnIndex(ColumnName(i + 1)) == i
  {
    ColumnValueOfName(i + 1);
  }

  /** Upper and lower case letters give the same index. */
  lemma {:induction false} ColumnIndexIgnoresCase(s: string)
    ensures ColumnIndex(Upper(s)) == ColumnIndex(s) && ColumnIndex(Lower(s)) == ColumnIndex(s)
    decreases |s|
  {
    if s != [] {
      var n := |s| - 1;
      ColumnIndexIgnoresCase(s[..n]);
      assert Upper(s)[..n] == Upper(s[..n]);
      assert Lower(s)[..n] == Lower(s[..n]);
      assert LetterValue(Upper(s)[n]) == LetterValue(s[n]);
      assert LetterValue(Lower(s)[n]) == LetterValue(s[n]);
    }
  }

  // ---------------------------------------------------------------------------
  // int() on a string

  function DigitsValue(ds: string): int
    decreases |ds|
  {
    if ds == [] then 0 else DigitsValue(ds[..|ds| - 1]) * 10 + (ds[|ds| - 1] as int - '0' as int)
  }

  predicate AllDigits(ds: string)
  {
    forall i :: 0 <= i < |ds| ==> IsDigit(ds[i])
  }

  /** The value of an optionally signed run of decimal digits; None for anything else. */
  function SignedDigits(t: string): Option<int>
  {
    var negative := t != [] && t[0] == '-';
    var ds := if t != [] && (t[0] == '-' || t[0] == '+') then t[1..] else t;
    if ds == [] || !AllDigits(ds) then None
    else Some(if negative then -DigitsValue(ds) else DigitsValue(ds))
  }

  const InvalidIntLiteral := "invalid literal for int() with base 10: "

  /** `int(s)`: optional whitespace around an optionally signed run of decimal digits. */
  function ParseInt(s: string): Result<int, PyError>
  {
    match SignedDigits(Strip(s))
    case None => Err(ValueError(InvalidIntLiteral + "'" + s + "'"))
    case Some(v) => Ok(v)
  }

  lemma {:induction false} DigitsOfValue(n: nat)
    ensures DigitsOf(n) != [] && AllDigits(DigitsOf(n)) && DigitsValue(DigitsOf(n)) == n
    decreases n
  {
    var ds := DigitsOf(n);
    if n < 10 {
      assert ds == [DigitChar(n)];
      assert ds[..0] == [];
    } else {
      DigitsOfValue(n / 10);
      assert ds == DigitsOf(n / 10) + [DigitChar(n % 10)];
      assert ds[..|ds| - 1] == DigitsOf(n / 10);
    }
  }

  /** The digits of a natural number, read back. */
  lemma ParseIntOfDigits(n: nat)
    ensures ParseInt(DigitsOf(n)) == Ok(n)
  {
    var d := DigitsOf(n);
    DigitsOfValue(n);
    StripUnchanged(d);
    assert SignedDigits(d) == Some(n as int) by { assert d[0] != '-' && d[0] != '+'; }
  }

  /** A minus sign before a run of digits is read back as the negated value. */
  lemma ParseIntNegated(s: string, d: string)
    requires s == "-" + d && d != [] && AllDigits(d)
    ensures ParseInt(s) == Ok(-DigitsValue(d))
  {
    assert s[1..] == d;
    assert s[|s| - 1] == d[|d| - 1];
    StripUnchanged(s);
  }

  /** `int(str(i)) == i` for a negative `i`: the minus sign is read back. */
  lemma ParseIntOfNegative(i: int)
    requires i < 0
    ensures ParseInt(PyStr(Int(i))) == Ok(i)
  {
    var n: nat := -i;
    var d := DigitsOf(n);
    DigitsOfValue(n);
    PyStrOfNegative(i);
    ParseIntNegated(PyStr(Int(i)), d);
  }

  /** `int(str(i)) == i` for a non-negative `i`. */
  lemma ParseIntOfNonNegative(i: int)
    requires i >= 0
    ensures ParseInt(PyStr(Int(i))) == Ok(i)
  {
    assert PyStr(Int(i)) == DigitsOf(i);
    ParseIntOfDigits(i);
  }

  /** `int(str(i)) == i`. */
  lemma ParseIntOfStr(i: int)
    ensures ParseInt(PyStr(Int(i))) == Ok(i)
  {
    if i < 0 {
      ParseIntOfNegative(i);
    } else {
      ParseIntOfNonNegative(i);
    }
  }

  // ---------------------------------------------------------------------------
  // get_range (lines 125-142)

  /** `list(range(lo, hi))`. */
  function IntRange(lo: int, hi: int): seq<int>
    decreases hi - lo
  {
    if lo >= hi then [] else [lo] + IntRange(lo + 1, hi)
  }

  /** `range(lo, hi)` holds `hi - lo` consecutive integers from `lo` upwards, none when `lo >= hi`. */
  lemma {:induction false} IntRangeSpec(lo: int, hi: int)
    ensures |IntRange(lo, hi)| == if lo < hi then hi - lo else 0
    ensures forall i :: 0 <= i < |IntRange(lo, hi)| ==> IntRange(lo, hi)[i] == lo + i
    decreases hi - lo
  {
    if lo < hi {
      IntRangeSpec(lo + 1, hi);
    }
  }

  /** The `max_value` default of `get_range`, which "end" stands for. */
  const DefaultMax: int := 10000

  /** The `data_format` whose range bounds are column letters. */
  const VarsInRows: string := "vars_in_rows"

  /** Python's message for `start, end = parts` with the wrong number of parts. */
  function UnpackError(n: nat): PyError
  {
    if n > 2 then ValueError("too many values to unpack (expected 2)")
    else ValueError("not enough values to unpack (expected 2)")
  }

  /** `get_range(value, data_format, max_value)`. */
  function GetRange(value: string, dataFormat: string, maxValue: int): Result<seq<int>, PyError>
  {
    var isCol := dataFormat == VarsInRows;
    if ':' in value then
      var parts := Split(value, ':');
      if |parts| != 2 then Err(UnpackError(|parts|))
      else if isCol then
        Ok(IntRange(ColumnIndex(parts[0]), if parts[1] == "end" then maxValue else ColumnIndex(parts[1])))
      else
        var start :- ParseInt(parts[0]);
        var end :- if parts[1] == "end" then Ok(maxValue) else ParseInt(parts[1]);
        Ok(IntRange(start - 1, end))
    else if isCol then Ok([ColumnIndex(value)])
    else
      var n :- ParseInt(value);
      Ok([n - 1])
  }

  lemma SplitTwo(a: string, b: string)
    requires ':' !in a && ':' !in b
    ensures ':' in a + ":" + b && Split(a + ":" + b, ':') == [a, b]
  {
    assert (a + ":" + b)[|a|] == ':';
    SplitAtSeparator(a, b, ':');
    SplitNoSeparator(b, ':');
  }

  /** With column letters, "x:y" runs from column x up to, not including, column y; "end" is `max_value`. */
  lemma GetRangeColumns(a: string, b: string, maxValue: int)
    requires ':' !in a && ':' !in b
    ensures GetRange(a + ":" + b, VarsInRows, maxValue)
            == Ok(IntRange(ColumnIndex(a), if b == "end" then maxValue else ColumnIndex(b)))
  {
    SplitTwo(a, b);
  }

  /** With row numbers, "x:y" runs from row x (1-based, so index x - 1) up to index y - 1. */
  lemma GetRangeRows(a: string, b: string, dataFormat: string, maxValue: int, x: int, y: int)
    requires ':' !in a && ':' !in b && dataFormat != VarsInRows
    requires ParseInt(a) == Ok(x) && (b == "end" || ParseInt(b) == Ok(y))
    ensures GetRange(a + ":" + b, dataFormat, maxValue) == Ok(IntRange(x - 1, if b == "end" then maxValue else y))
  {
    SplitTwo(a, b);
  }

  /** "A:C" gives the first two columns. */
  lemma GetRangeColumnsExample()
    ensures GetRange("A:C", VarsInRows, DefaultMax) == Ok([0, 1])
  {
    GetRangeColumns("A", "C", DefaultMax);
    assert "A" + ":" + "C" == "A:C";
    assert ColumnIndex("A") == 0 && ColumnIndex("C") == 2;
    assert IntRange(0, 2) == [0, 1];
  }

  lemma ParseIntOneThree()
    ensures ParseInt("1") == Ok(1) && ParseInt("3") == Ok(3)
  {
    ParseIntOfDigits(1);
    ParseIntOfDigits(3);
    assert DigitsOf(1) == "1" && DigitsOf(3) == "3";
  }

  /** Rows "1:3" give the first three rows. */
  lemma GetRangeRowsExample()
    ensures GetRange("1:3", "vars_in_cols", DefaultMax) == Ok([0, 1, 2])
  {
    assert "1" + ":" + "3" == "1:3";
    assert IntRange(0, 3) == [0, 1, 2];
    ParseIntOneThree();
    GetRangeRows("1", "3", "vars_in_cols", DefaultMax, 1, 3);
  }

  /** A value without ':' is one column or one row. */
  lemma GetRangeSingle(value: string, dataFormat: string, maxValue: int)
    requires ':' !in value
    ensures dataFormat == VarsInRows ==> GetRange(value, dataFormat, maxValue) == Ok([ColumnIndex(value)])
    ensures dataFormat != VarsInRows ==>
              (GetRange(value, dataFormat, maxValue).Ok? <==> ParseInt(value).Ok?)
              && (ParseInt(value).Ok? ==> GetRange(value, dataFormat, maxValue) == Ok([ParseInt(value).value - 1]))
  {
  }

  /** A value with two or more ':' fails at the two-way unpack, whatever the format. */
  lemma GetRangeTooManyParts(value: string, dataFormat: string, maxValue: int)
    requires multiset(value)[':'] >= 2
    ensures GetRange(value, dataFormat, maxValue) == Err(ValueError("too many values to unpack (expected 2)"))
  {
    SplitPieces(value, ':');
  }

  predicate Consecutive(xs: seq<int>)
  {
    forall i :: 0 <= i < |xs| - 1 ==> xs[i + 1] == xs[i] + 1
  }

  lemma IntRangeConsecutive(lo: int, hi: int)
    ensures Consecutive(IntRange(lo, hi))
  {
    IntRangeSpec(lo, hi);
  }

  /** Whatever it returns is a run of consecutive ascending indices. */
  lemma GetRangeConsecutive(value: string, dataFormat: string, maxValue: int)
    requires GetRange(value, dataFormat, maxValue).Ok?
    ensures Consecutive(GetRange(value, dataFormat, maxValue).value)
  {
    if ':' in value {
      var parts := Split(value, ':');
      assert |parts| == 2;
      var lo, hi;
      if dataFormat == VarsInRows {
        lo, hi := ColumnIndex(parts[0]), if parts[1] == "end" then maxValue else ColumnIndex(parts[1]);
      } else {
        assert ParseInt(parts[0]).Ok?;
        assert parts[1] == "end" || ParseInt(parts[1]).Ok?;
        lo, hi := ParseInt(parts[0]).value - 1, if parts[1] == "end" then maxValue else ParseInt(parts[1]).value;
      }
      assert GetRange(value, dataFormat, maxValue).value == IntRange(lo, hi);
      IntRangeConsecutive(lo, hi);
    }
  }

  // ---------------------------------------------------------------------------
  // The data-range filter (line 212)

  /** `[idx for idx in data_range if idx < n]`. */
  function KeepBelow(xs: seq<int>, n: int): seq<int>
    decreases |xs|
  {
    if xs == [] then []
    else (if xs[0] < n then [xs[0]] else []) + KeepBelow(xs[1..], n)
  }

  /** An index survives exactly when it is in the range and below the column count. */
  lemma {:induction false} KeepBelowMembers(xs: seq<int>, n: int)
    ensures forall x :: x in KeepBelow(xs, n) <==> x in xs && x < n
    decreases |xs|
  {
    if xs != [] {
      KeepBelowMembers(xs[1..], n);
      assert xs == [xs[0]] + xs[1..];
    }
  }

  /** The filter keeps order: it distributes over concatenation. */
  lemma {:induction false} KeepBelowAppend(xs: seq<int>, ys: seq<int>, n: int)
    ensures KeepBelow(xs + ys, n) == KeepBelow(xs, n) + KeepBelow(ys, n)
    decreases |xs|
  {
    if xs == [] {
      assert xs + ys == ys;
    } else {
      assert (xs + ys)[1..] == xs[1..] + ys;
      KeepBelowAppend(xs[1..], ys, n);
    }
  }

  /** On a range from `get_range`, the filter cuts the range off at the column count. */
  lemma {:induction false} KeepBelowRange(lo: int, hi: int, n: int)
    ensures KeepBelow(IntRange(lo, hi), n) == IntRange(lo, if hi < n then hi else n)
    decreases hi - lo
  {
    if lo < hi {
      KeepBelowRange(lo + 1, hi, n);
      if n <= lo {
        assert IntRange(lo, n) == [];
      }
    }
  }

  // ---------------------------------------------------------------------------
  // dataframe_to_dict_without_nans (lines 144-148)

  /** The cells of a row that are not NaN, in column order. */
  function PresentCells<K, V>(row: seq<(K, Option<V>)>): seq<(K, V)>
    decreases |row|
  {
    if row == [] then []
    else
      var init := PresentCells(row[..|row| - 1]);
      var cell := row[|row| - 1];
      if cell.1.Some? then init + [(cell.0, cell.1.value)] else init
  }

  /** `{key: value for key, value in row.items() if pd.notna(value)}`. */
  function RowWithoutNans<K(==), V>(row: seq<(K, Option<V>)>): seq<(K, V)>
  {
    FromPairs(PresentCells(row))
  }

  /** One mapping per row, in row order. */
  function FrameWithoutNans<K(==), V>(rows: seq<seq<(K, Option<V>)>>): (r: seq<seq<(K, V)>>)
    ensures |r| == |rows|
  {
    seq(|rows|, i requires 0 <= i < |rows| => RowWithoutNans(rows[i]))
  }

  lemma {:induction false} PresentCellsFound<K, V>(row: seq<(K, Option<V>)>, k: K)
    ensures Get(PresentCells(row), k).Some? ==> exists j :: 0 <= j < |row| && row[j] == (k, Get(PresentCells(row), k))
    decreases |row|
  {
    if row != [] {
      var n := |row| - 1;
      var init := PresentCells(row[..n]);
      PresentCellsFound(row[..n], k);
      if row[n].1.Some? {
        GetAppend(init, row[n].0, row[n].1.value, k);
      }
      if Get(PresentCells(row), k).Some? && !(row[n].0 == k && row[n].1.Some?) {
        var j :| 0 <= j < n && row[..n][j] == (k, Get(init, k));
        assert row[j] == row[..n][j];
      }
    }
  }

  lemma {:induction false} PresentCellsUnique<K, V>(row: seq<(K, Option<V>)>, j: nat)
    requires UniqueKeys(row) && j < |row|
    ensures Get(PresentCells(row), row[j].0) == row[j].1
    decreases |row|
  {
    var n := |row| - 1;
    var init := PresentCells(row[..n]);
    if row[n].1.Some? {
      GetAppend(init, row[n].0, row[n].1.value, row[j].0);
    }
    if j < n {
      assert UniqueKeys(row[..n]);
      assert row[..n][j] == row[j];
      PresentCellsUnique(row[..n], j);
    } else {
      PresentCellsAbsent(row[..n], row[j].0);
    }
  }

  lemma {:induction false} PresentCellsAbsent<K, V>(row: seq<(K, Option<V>)>, k: K)
    requires forall j :: 0 <= j < |row| ==> row[j].0 != k
    ensures Get(PresentCells(row), k) == None
    decreases |row|
  {
    if row != [] {
      var n := |row| - 1;
      var init := PresentCells(row[..n]);
      if row[n].1.Some? {
        GetAppend(init, row[n].0, row[n].1.value, k);
      }
      PresentCellsAbsent(row[..n], k);
    }
  }

  /**
   * The mapping of a row holds exactly its non-NaN cells: a key is present with its value
   * when that cell is not NaN and absent otherwise (column labels being distinct).
   */
  lemma RowWithoutNansGet<K, V>(row: seq<(K, Option<V>)>, k: K)
    ensures Get(RowWithoutNans(row), k).Some? ==> exists j :: 0 <= j < |row| && row[j] == (k, Get(RowWithoutNans(row), k))
    ensures UniqueKeys(row) ==> forall j :: 0 <= j < |row| && row[j].0 == k ==> Get(RowWithoutNans(row), k) == row[j].1
  {
    FromPairsGet(PresentCells(row), k);
    PresentCellsFound(row, k);
    if UniqueKeys(row) {
      forall j | 0 <= j < |row| && row[j].0 == k ensures Get(RowWithoutNans(row), k) == row[j].1 {
        PresentCellsUnique(row, j);
      }
    }
  }

  // ---------------------------------------------------------------------------
  // The vars_in_rows transform (lines 278-282)

  /** A row of a vars_in_rows sheet: the cell of column 0 and the cells after it. */
  datatype SheetRow<V> = SheetRow(first: Option<V>, rest: seq<Option<V>>)

  /** `row.iloc[1:].dropna().tolist()`. */
  function DropNa<V>(cells: seq<Option<V>>): seq<V>
    decreases |cells|
  {
    if cells == [] then []
    else (if cells[0].Some? then [cells[0].value] else []) + DropNa(cells[1..])
  }

  /** `dropna` keeps the present values in order: it distributes over concatenation. */
  lemma {:induction false} DropNaAppend<V>(a: seq<Option<V>>, b: seq<Option<V>>)
    ensures DropNa(a + b) == DropNa(a) + DropNa(b)
    decreases |a|
  {
    if a == [] {
      assert a + b == b;
    } else {
      var h := if a[0].Some? then [a[0].value] else [];
      assert (a + b)[0] == a[0] && (a + b)[1..] == a[1..] + b;
      DropNaAppend(a[1..], b);
      calc {
        DropNa(a + b);
        h + DropNa(a[1..] + b);
        h + (DropNa(a[1..]) + DropNa(b));
        (h + DropNa(a[1..])) + DropNa(b);
        DropNa(a) + DropNa(b);
      }
    }
  }

  /** A value survives `dropna` exactly when a cell holds it. */
  lemma {:induction false} DropNaMembers<V>(cells: seq<Option<V>>)
    ensures forall v :: v in DropNa(cells) <==> Some(v) in cells
    decreases |cells|
  {
    if cells != [] {
      DropNaMembers(cells[1..]);
      assert cells == [cells[0]] + cells[1..];
    }
  }

  /**
   * The dict the loop of lines 278-282 has built after the given rows: each row performs
   * `transformed_data[key] = values`.  Every NaN cell of column 0 is the one key `None`.
   */
  function Transform<V(==)>(rows: seq<SheetRow<V>>): seq<(Option<V>, seq<V>)>
    decreases |rows|
  {
    if rows == [] then []
    else Put(Transform(rows[..|rows| - 1]), rows[|rows| - 1].first, DropNa(rows[|rows| - 1].rest))
  }

  /** Lines 278-282. */
  method TransformRows<V(==)>(rows: seq<SheetRow<V>>) returns (transformed: seq<(Option<V>, seq<V>)>)
    ensures transformed == Transform(rows)
  {
    transformed := [];
    for i := 0 to |rows|
      invariant transformed == Transform(rows[..i])
    {
      assert rows[..i + 1][..i] == rows[..i];
      var values := DropNa(rows[i].rest);
      transformed := Put(transformed, rows[i].first, values);
    }
    assert rows[..|rows|] == rows;
  }

  /** A key maps to the present cells of the last row that has it in column 0. */
  lemma {:induction false} TransformLastWins<V>(rows: seq<SheetRow<V>>, i: nat, key: Option<V>)
    requires i < |rows| && rows[i].first == key
    requires forall j :: i < j < |rows| ==> rows[j].first != key
    ensures Get(Transform(rows), key) == Some(DropNa(rows[i].rest))
    decreases |rows|
  {
    var n := |rows| - 1;
    PutGet(Transform(rows[..n]), rows[n].first, DropNa(rows[n].rest), key);
    if i < n {
      assert rows[..n][i] == rows[i];
      TransformLastWins(rows[..n], i, key);
    }
  }

  /** A key no row has in column 0 is not in the dict. */
  lemma {:induction false} TransformAbsent<V>(rows: seq<SheetRow<V>>, key: Option<V>)
    requires forall j :: 0 <= j < |rows| ==> rows[j].first != key
    ensures Get(Transform(rows), key) == None
    decreases |rows|
  {
    if rows != [] {
      var n := |rows| - 1;
      PutGet(Transform(rows[..n]), rows[n].first, DropNa(rows[n].rest), key);
      TransformAbsent(rows[..n], key);
    }
  }

  /** Column 0 of each row, in order. */
  function FirstCells<V>(rows: seq<SheetRow<V>>): seq<Option<V>>
  {
    seq(|rows|, i requires 0 <= i < |rows| => rows[i].first)
  }

  /** `xs` without repeats, each value kept where it first occurs. */
  function Distinct<T(==)>(xs: seq<T>): seq<T>
    decreases |xs|
  {
    if xs == [] then []
    else
      var d := Distinct(xs[..|xs| - 1]);
      if xs[|xs| - 1] in d then d else d + [xs[|xs| - 1]]
  }

  lemma {:induction false} DistinctMembers<T>(xs: seq<T>)
    ensures forall x :: x in Distinct(xs) <==> x in xs
    decreases |xs|
  {
    if xs != [] {
      var n := |xs| - 1;
      DistinctMembers(xs[..n]);
      assert xs == xs[..n] + [xs[n]];
    }
  }

  /** The keys are the values of column 0 without repeats, in the order of their first rows. */
  lemma {:induction false} TransformKeys<V>(rows: seq<SheetRow<V>>)
    ensures Keys(Transform(rows)) == Distinct(FirstCells(rows))
    decreases |rows|
  {
    if rows != [] {
      var n := |rows| - 1;
      TransformKeys(rows[..n]);
      PutKeys(Transform(rows[..n]), rows[n].first, DropNa(rows[n].rest));
      assert FirstCells(rows)[..n] == FirstCells(rows[..n]);
    }
  }

  /** Assignment never repeats a key. */
  lemma {:induction false} TransformUnique<V>(rows: seq<SheetRow<V>>)
    ensures UniqueKeys(Transform(rows))
    decreases |rows|
  {
    if rows != [] {
      var n := |rows| - 1;
      TransformUnique(rows[..n]);
      PutUnique(Transform(rows[..n]), rows[n].first, DropNa(rows[n].rest));
    }
  }

  /**
   * The rows whose column-0 cell is NaN share one entry: the dict holds the key `None`
   * exactly when such a row exists, and no key twice.
   */
  lemma TransformNanKey<V>(rows: seq<SheetRow<V>>)
    ensures UniqueKeys(Transform(rows))
    ensures None in Keys(Transform(rows)) <==> exists j :: 0 <= j < |rows| && rows[j].first.None?
  {
    TransformUnique(rows);
    TransformKeys(rows);
    DistinctMembers(FirstCells(rows));
    if exists j :: 0 <= j < |rows| && rows[j].first.None? {
      var j :| 0 <= j < |rows| && rows[j].first.None?;
      assert FirstCells(rows)[j] == None;
    }
  }
}
