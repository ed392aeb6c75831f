/**
 The monthly tax tables: fixed-width records read column by column, gathered
 by table and sorted, and the check that no table misses a section.
 */
module TaxTables {
  import opened Prelude
  import opened Numerals
  import StableSort

  const COLUMNS := 6
  const COLUMN_WIDTH := 5
  const INCOME_WIDTH := 7
  const RECORD_LENGTH := 49

  /** `columns` are kronor on a krona row and percent on a percent row. */
  datatype TaxRow = TaxRow(incomeFrom: nat, incomeTo: nat, columns: seq<nat>, isPercent: bool)

  datatype Line = Accepted(table: int, row: TaxRow) | Skipped | Malformed

  // ----- text -----

  /** What `trim` takes off: white space and line terminators of ECMA-262. */
  predicate IsSpace(c: char) {
    c in " \t\n\r\U{000B}\U{000C}\U{00A0}\U{1680}\U{2028}\U{2029}\U{202F}\U{205F}\U{3000}\U{FEFF}"
    || '\U{2000}' <= c <= '\U{200A}'
  }

  function TrimStart(s: string): string {
    if s != "" && IsSpace(s[0]) then TrimStart(s[1..]) else s
  }

  function TrimEnd(s: string): string {
    if s != "" && IsSpace(s[|s| - 1]) then TrimEnd(s[..|s| - 1]) else s
  }

  function Trim(s: string): string {
    TrimEnd(TrimStart(s))
  }

  function LeadingDigits(s: string): (d: string)
    ensures IsNumeral(d) && |d| <= |s|
    ensures s != "" && IsDigit(s[0]) ==> d != ""
  {
    if s != "" && IsDigit(s[0]) then [s[0]] + LeadingDigits(s[1..]) else ""
  }

  /** `parseInt(s, 10)`: leading space, a sign, and as many digits as there are; the rest is ignored. */
  function ParseIntPrefix(s: string): Option<int> {
    var t := TrimStart(s);
    var signed := t != "" && (t[0] == '-' || t[0] == '+');
    var digits := LeadingDigits(if signed then t[1..] else t);
    if digits == "" then None
    else if signed && t[0] == '-' then Some(0 - Value(digits))
    else Some(Value(digits))
  }

  // ----- one record -----

  datatype Cell = Number(value: nat) | Blank | Garbage

  /** A non-empty digits-only field, once trimmed. */
  function CellOf(s: string): Cell {
    var raw := Trim(s);
    if raw == "" then Blank else if IsNumeral(raw) then Number(Value(raw)) else Garbage
  }

  function IncomeAt(clean: string, start: nat): Cell
    requires start + INCOME_WIDTH <= |clean|
  {
    CellOf(clean[start..start + INCOME_WIDTH])
  }

  function ColumnAt(clean: string, k: nat): Cell
    requires RECORD_LENGTH <= |clean| && k < COLUMNS
  {
    CellOf(clean[19 + COLUMN_WIDTH * k..19 + COLUMN_WIDTH * k + COLUMN_WIDTH])
  }

  /** A blank upper bound is legal only on a percent row, where it means open-ended. */
  function UpperBound(cell: Cell, isPercent: bool): Option<nat> {
    match cell
    case Number(value) => Some(value)
    case Blank => if isPercent then Some(0) else None
    case Garbage => None
  }

  function Clean(line: string): string {
    if line != "" && line[0] == '\U{FEFF}' then line[1..] else line
  }

  predicate AllNumbers(clean: string)
    requires RECORD_LENGTH <= |clean|
  {
    forall k :: 0 <= k < COLUMNS ==> ColumnAt(clean, k).Number?
  }

  function ParseLine(line: string): Line {
    var clean := Clean(line);
    if |clean| < RECORD_LENGTH then Skipped
    else if clean[2] != 'B' && clean[2] != '%' then Skipped
    else if clean[..2] == "14" then Malformed
    else if clean[..2] != "30" then Skipped
    else
      var isPercent := clean[2] == '%';
      var table := ParseIntPrefix(clean[3..5]);
      if table.None? then Skipped
      else
        var from, to := IncomeAt(clean, 5), UpperBound(IncomeAt(clean, 12), isPercent);
        if !from.Number? || to.None? || !AllNumbers(clean) then Malformed
        else
          var columns := seq(COLUMNS, k requires 0 <= k < COLUMNS => ColumnAt(clean, k).value);
          Accepted(table.value, TaxRow(from.value, to.value, columns, isPercent))
  }

  // ----- the documented record -----

  /** Right-justified in its field. */
  ghost function Field(n: nat, width: nat): string {
    PadStart(Numeral(n), width, ' ')
  }

  ghost function Fields(columns: seq<nat>): string {
    if columns == [] then "" else Fields(columns[..|columns| - 1]) + Field(columns[|columns| - 1], COLUMN_WIDTH)
  }

  ghost predicate InRange(table: nat, row: TaxRow) {
    && table < 100 && row.incomeFrom < Pow10(INCOME_WIDTH) && row.incomeTo < Pow10(INCOME_WIDTH)
    && |row.columns| == COLUMNS
    && forall k :: 0 <= k < COLUMNS ==> row.columns[k] < Pow10(COLUMN_WIDTH)
  }

  /** The open-ended percent row leaves its upper bound blank. */
  ghost function RenderLine(table: nat, row: TaxRow): string {
    "30" + (if row.isPercent then "%" else "B") + PadStart(Numeral(table), 2, '0')
    + Field(row.incomeFrom, INCOME_WIDTH)
    + (if row.isPercent && row.incomeTo == 0 then Repeat(' ', INCOME_WIDTH) else Field(row.incomeTo, INCOME_WIDTH))
    + Fields(row.columns)
  }

  lemma {:induction false} SpacesTrim(n: nat, s: string)
    requires s == "" || (!IsSpace(s[0]) && !IsSpace(s[|s| - 1]))
    ensures Trim(Repeat(' ', n) + s) == s
  {
    if n == 0 {
      assert Repeat(' ', 0) + s == s;
    } else {
      SpacesTrim(n - 1, s);
      assert (Repeat(' ', n) + s)[1..] == Repeat(' ', n - 1) + s;
      assert (Repeat(' ', n) + s)[0] == ' ';
    }
  }

  lemma DigitsAreNotSpace(c: char)
    requires IsDigit(c)
    ensures !IsSpace(c)
  {
  }

  lemma FieldReadsBack(n: nat, width: nat)
    requires width > 0 && n < Pow10(width)
    ensures |Field(n, width)| == width && CellOf(Field(n, width)) == Number(n)
  {
    hide IsSpace, Trim, Value, Pow10, Numeral;
    NumeralLength(n, width);
    NumeralValue(n);
    DigitsAreNotSpace(Numeral(n)[0]);
    DigitsAreNotSpace(Numeral(n)[|Numeral(n)| - 1]);
    SpacesTrim(width - |Numeral(n)|, Numeral(n));
    assert Repeat(' ', 0) + Numeral(n) == Numeral(n);
  }

  lemma {:induction false} FieldsReadBack(columns: seq<nat>)
    requires forall k :: 0 <= k < |columns| ==> columns[k] < Pow10(COLUMN_WIDTH)
    ensures |Fields(columns)| == COLUMN_WIDTH * |columns|
    ensures forall k :: 0 <= k < |columns| ==>
              CellOf(Fields(columns)[COLUMN_WIDTH * k..COLUMN_WIDTH * k + COLUMN_WIDTH]) == Number(columns[k])
  {
    hide CellOf, Field, Pow10;
    if columns != [] {
      var front, last := columns[..|columns| - 1], columns[|columns| - 1];
      FieldsReadBack(front);
      FieldReadsBack(last, COLUMN_WIDTH);
      forall k | 0 <= k < |columns|
        ensures CellOf(Fields(columns)[COLUMN_WIDTH * k..COLUMN_WIDTH * k + COLUMN_WIDTH]) == Number(columns[k])
      {
        var text := Fields(columns)[COLUMN_WIDTH * k..COLUMN_WIDTH * k + COLUMN_WIDTH];
        if k < |front| {
          assert text == Fields(front)[COLUMN_WIDTH * k..COLUMN_WIDTH * k + COLUMN_WIDTH];
        } else {
          assert text == Field(last, COLUMN_WIDTH);
        }
      }
    }
  }

  lemma TableReadsBack(table: nat)
    requires table < 100
    ensures |PadStart(Numeral(table), 2, '0')| == 2 && ParseIntPrefix(PadStart(Numeral(table), 2, '0')) == Some(table)
  {
    var text := PadStart(Numeral(table), 2, '0');
    NumeralLength(table, 2);
    assert Pow10(2) == 100 by { assert Pow10(1) == 10; }
    NumeralValue(table);
    PadStartValue(Numeral(table), 2);
    DigitsAreNotSpace(text[0]);
    assert text == [text[0]] + [text[1]] + [];
    assert LeadingDigits(text[1..]) == text[1..] by { assert text[1..][1..] == ""; }
    assert LeadingDigits(text) == text;
  }

  lemma LayOut(month: string, kind: string, table: string, from: string, to: string, columns: string)
    requires |month| == 2 && |kind| == 1 && |table| == 2 && |from| == INCOME_WIDTH && |to| == INCOME_WIDTH
    ensures var text := month + kind + table + from + to + columns;
            && text[..2] == month && text[2] == kind[0] && text[3..5] == table
            && text[5..12] == from && text[12..19] == to && text[19..] == columns
  {
    var text := month + kind + table + from + to + columns;
    assert text == (month + kind) + (table + from + to + columns);
    assert text == (month + kind + table) + (from + to + columns);
    assert text == (month + kind + table + from) + (to + columns);
  }

  /** Where the fields of a rendered record stand, and what they read back as. */
  lemma RecordLayout(table: nat, row: TaxRow)
    requires InRange(table, row)
    ensures var text := RenderLine(table, row);
            && |text| == RECORD_LENGTH && text[..2] == "30" && text[2] == (if row.isPercent then '%' else 'B')
            && text[3..5] == PadStart(Numeral(table), 2, '0')
            && IncomeAt(text, 5) == Number(row.incomeFrom)
            && UpperBound(IncomeAt(text, 12), row.isPercent) == Some(row.incomeTo)
            && |row.columns| == COLUMNS && forall k :: 0 <= k < COLUMNS ==> ColumnAt(text, k) == Number(row.columns[k])
  {
    hide CellOf, Field, Fields, PadStart, Numeral, Pow10;
    var from := Field(row.incomeFrom, INCOME_WIDTH);
    var to := if row.isPercent && row.incomeTo == 0 then Repeat(' ', INCOME_WIDTH)
              else Field(row.incomeTo, INCOME_WIDTH);
    TableReadsBack(table);
    FieldReadsBack(row.incomeFrom, INCOME_WIDTH);
    FieldReadsBack(row.incomeTo, INCOME_WIDTH);
    FieldsReadBack(row.columns);
    BlankReadsBack(INCOME_WIDTH);
    var text := RenderLine(table, row);
    LayOut("30", if row.isPercent then "%" else "B", PadStart(Numeral(table), 2, '0'), from, to, Fields(row.columns));
    forall k | 0 <= k < COLUMNS ensures ColumnAt(text, k) == Number(row.columns[k]) {
      assert text[19 + COLUMN_WIDTH * k..19 + COLUMN_WIDTH * k + COLUMN_WIDTH]
          == Fields(row.columns)[COLUMN_WIDTH * k..COLUMN_WIDTH * k + COLUMN_WIDTH];
    }
  }

  /** Reading inverts rendering, for every table number and every field in range. */
  lemma ParseLineInvertsRender(table: nat, row: TaxRow)
    requires InRange(table, row)
    ensures ParseLine(RenderLine(table, row)) == Accepted(table, row)
  {
    hide CellOf, RenderLine, ParseIntPrefix, PadStart, Numeral, Pow10;
    RecordLayout(table, row);
    TableReadsBack(table);
    var text := RenderLine(table, row);
    assert text[0] == text[..2][0] == '3';
    assert seq(COLUMNS, k requires 0 <= k < COLUMNS => ColumnAt(text, k).value) == row.columns;
  }

  lemma BlankReadsBack(n: nat)
    ensures CellOf(Repeat(' ', n)) == Blank
  {
    SpacesTrim(n, "");
    assert Repeat(' ', n) + "" == Repeat(' ', n);
  }

  // ----- exactly the records that are accepted -----

  ghost predicate AllSpace(s: string) {
    forall k :: 0 <= k < |s| ==> IsSpace(s[k])
  }

  /** Digits from `i` up to `j`, and nothing but white space around them. */
  ghost predicate NumeralWithin(s: string, i: nat, j: nat) {
    && i < j <= |s| && IsNumeral(s[i..j])
    && AllSpace(s[..i]) && AllSpace(s[j..])
  }

  ghost predicate NumberField(s: string) {
    exists i: nat, j: nat :: NumeralWithin(s, i, j)
  }

  lemma {:induction false} TrimStartBound(s: string) returns (i: nat)
    ensures i <= |s| && TrimStart(s) == s[i..] && AllSpace(s[..i]) && (i < |s| ==> !IsSpace(s[i]))
  {
    hide IsSpace;
    if s != "" && IsSpace(s[0]) {
      var rest := TrimStartBound(s[1..]);
      i := rest + 1;
      assert s[..i] == [s[0]] + s[1..][..rest];
    } else {
      i := 0;
    }
  }

  lemma {:induction false} TrimEndBound(s: string) returns (j: nat)
    ensures j <= |s| && TrimEnd(s) == s[..j] && AllSpace(s[j..]) && (j > 0 ==> !IsSpace(s[j - 1]))
  {
    hide IsSpace;
    if s != "" && IsSpace(s[|s| - 1]) {
      j := TrimEndBound(s[..|s| - 1]);
      assert s[..|s| - 1][..j] == s[..j];
      assert s[j..] == s[..|s| - 1][j..] + [s[|s| - 1]];
    } else {
      j := |s|;
    }
  }

  lemma TrimBounds(s: string) returns (i: nat, j: nat)
    ensures i <= j <= |s| && Trim(s) == s[i..j] && AllSpace(s[..i]) && AllSpace(s[j..])
    ensures i < j ==> !IsSpace(s[i]) && !IsSpace(s[j - 1])
  {
    hide IsSpace, TrimStart, TrimEnd;
    i := TrimStartBound(s);
    var k := TrimEndBound(s[i..]);
    j := i + k;
    assert s[i..][..k] == s[i..j] && s[i..][k..] == s[j..];
  }

  /** Which fields are numbers, with which value, and which are blank. */
  lemma CellIs(s: string)
    ensures CellOf(s).Number? <==> NumberField(s)
    ensures forall i: nat, j: nat :: NumeralWithin(s, i, j) ==> CellOf(s) == Number(Value(s[i..j]))
    ensures CellOf(s).Blank? <==> AllSpace(s)
  {
    hide IsSpace, Trim, Value;
    var i, j := TrimBounds(s);
    if i < j {
      assert !AllSpace(s) by { assert !IsSpace(s[i]); }
    } else {
      assert s == s[..i] + s[j..];
    }
    if CellOf(s).Number? {
      assert NumeralWithin(s, i, j);
    }
    forall i', j' | NumeralWithin(s, i', j') ensures i' == i && j' == j {
      NumeralBounds(s, i, j, i', j');
    }
  }

  lemma NumeralBounds(s: string, i: nat, j: nat, i': nat, j': nat)
    requires i <= j <= |s| && AllSpace(s[..i]) && AllSpace(s[j..])
    requires i < j ==> !IsSpace(s[i]) && !IsSpace(s[j - 1])
    requires NumeralWithin(s, i', j')
    ensures i' == i && j' == j
  {
    DigitsAreNotSpace(s[i'..j'][0]);
    DigitsAreNotSpace(s[i'..j'][j' - i' - 1]);
    hide IsSpace;
    forall k | 0 <= k < i ensures IsSpace(s[k]) { assert s[..i][k] == s[k]; }
    forall k | j <= k < |s| ensures IsSpace(s[k]) { assert s[j..][k - j] == s[k]; }
    forall k | 0 <= k < i' ensures IsSpace(s[k]) { assert s[..i'][k] == s[k]; }
    forall k | j' <= k < |s| ensures IsSpace(s[k]) { assert s[j'..][k - j'] == s[k]; }
    assert !IsSpace(s[i']) && !IsSpace(s[j' - 1]);
  }

  /** The two characters of the table number: a digit and anything, or a digit behind a space or a sign. */
  ghost predicate TableField(a: char, b: char) {
    IsDigit(a) || ((IsSpace(a) || a == '-' || a == '+') && IsDigit(b))
  }

  ghost function DigitValue(c: char): nat
    requires IsDigit(c)
  {
    (c - '0') as nat
  }

  ghost function TableNumberOf(a: char, b: char): int
    requires TableField(a, b)
  {
    if IsDigit(a) && IsDigit(b) then 10 * DigitValue(a) + DigitValue(b)
    else if IsDigit(a) then DigitValue(a)
    else if a == '-' then 0 - DigitValue(b)
    else DigitValue(b)
  }

  lemma LeadingDigitsOfTwo(a: char, b: char)
    ensures LeadingDigits([b]) == if IsDigit(b) then [b] else ""
    ensures LeadingDigits([a, b]) == if IsDigit(a) then [a] + LeadingDigits([b]) else ""
  {
    assert [a, b][1..] == [b] && [b][1..] == "";
  }

  lemma TrimStartOfTwo(a: char, b: char)
    ensures TrimStart([a, b]) == if !IsSpace(a) then [a, b] else if !IsSpace(b) then [b] else ""
  {
    hide IsSpace;
    assert [a, b][1..] == [b] && [b][1..] == "";
    assert TrimStart([b]) == if IsSpace(b) then TrimStart("") else [b];
  }

  /** What follows the sign, if there is one. */
  ghost function Unsigned(t: string): string {
    if t != "" && (t[0] == '-' || t[0] == '+') then t[1..] else t
  }

  lemma PrefixOf(s: string, t: string, d: string)
    requires TrimStart(s) == t && LeadingDigits(Unsigned(t)) == d
    ensures d == "" ==> ParseIntPrefix(s) == None
    ensures d != "" && t != "" && t[0] == '-' ==> ParseIntPrefix(s) == Some(0 - Value(d))
    ensures d != "" && !(t != "" && t[0] == '-') ==> ParseIntPrefix(s) == Some(Value(d))
  {
    assert LeadingDigits(if t != "" && (t[0] == '-' || t[0] == '+') then t[1..] else t) == d;
  }

  lemma TableFieldIs(a: char, b: char)
    ensures ParseIntPrefix([a, b]).Some? <==> TableField(a, b)
    ensures TableField(a, b) ==> ParseIntPrefix([a, b]) == Some(TableNumberOf(a, b))
  {
    TrimStartOfTwo(a, b);
    LeadingDigitsOfTwo(a, b);
    DigitsOfTwo(a, b);
    if IsDigit(a) { DigitsAreNoSigns(a); }
    if IsDigit(b) { DigitsAreNoSigns(b); }
    SignsAreNotSpace();
    hide ParseIntPrefix, TrimStart, LeadingDigits, Value, IsSpace, IsDigit, DigitValue;
    var t := TrimStart([a, b]);
    PrefixOf([a, b], t, LeadingDigits(Unsigned(t)));
    assert [a, b][1..] == [b] && [b][1..] == "" && LeadingDigits("") == "";
  }

  lemma DigitsOfTwo(a: char, b: char)
    ensures IsDigit(a) ==> Value([a]) == DigitValue(a)
    ensures IsDigit(b) ==> Value([b]) == DigitValue(b)
    ensures IsDigit(a) && IsDigit(b) ==> Value([a, b]) == 10 * DigitValue(a) + DigitValue(b)
  {
    assert [a][..0] == "" && [b][..0] == "" && [a, b][..1] == [a];
  }

  lemma DigitsAreNoSigns(c: char)
    requires IsDigit(c)
    ensures c != '-' && c != '+' && !IsSpace(c)
  {
  }

  lemma SignsAreNotSpace()
    ensures !IsSpace('-') && !IsSpace('+')
  {
  }

  /** The raw characters of a record the import takes. */
  ghost predicate WellFormed(clean: string) {
    && |clean| >= RECORD_LENGTH
    && clean[0] == '3' && clean[1] == '0' && (clean[2] == 'B' || clean[2] == '%')
    && TableField(clean[3], clean[4])
    && NumberField(clean[5..12])
    && (NumberField(clean[12..19]) || (clean[2] == '%' && AllSpace(clean[12..19])))
    && forall k :: 0 <= k < COLUMNS ==> ColumnField(clean, k)
  }

  ghost predicate ColumnField(clean: string, k: nat)
    requires RECORD_LENGTH <= |clean| && k < COLUMNS
  {
    NumberField(clean[19 + COLUMN_WIDTH * k..19 + COLUMN_WIDTH * k + COLUMN_WIDTH])
  }

  /** The line without a byte order mark. */
  ghost function Bare(line: string): string {
    if "\U{FEFF}" <= line then line[1..] else line
  }

  /** A record for two weeks, or one for a month with a table number and a field that is no number. */
  ghost predicate MustFail(clean: string) {
    && |clean| >= 49 && (clean[2] == 'B' || clean[2] == '%')
    && (|| (clean[0] == '1' && clean[1] == '4')
        || (clean[0] == '3' && clean[1] == '0' && TableField(clean[3], clean[4]) && !WellFormed(clean)))
  }

  /** The white space of ECMA-262, by code point. */
  lemma SpacesAre(c: char)
    ensures IsSpace(c) <==>
            || 9 <= c as int <= 13 || c as int == 32 || c as int == 160 || c as int == 0x1680
            || 0x2000 <= c as int <= 0x200A || c as int == 0x2028 || c as int == 0x2029 || c as int == 0x202F
            || c as int == 0x205F || c as int == 0x3000 || c as int == 0xFEFF
  {
  }

  /**
   A line is accepted if and only if its characters are those of a well-formed
   record, fails the import if and only if they must, and is skipped otherwise.
   */
  lemma AcceptedIff(line: string)
    ensures ParseLine(line).Accepted? <==> WellFormed(Bare(line))
    ensures ParseLine(line).Malformed? <==> MustFail(Bare(line))
    ensures ParseLine(line).Accepted? ==> ParseLine(line).table == TableNumberOf(Bare(line)[3], Bare(line)[4])
    ensures ParseLine(line).Accepted? ==> (ParseLine(line).row.isPercent <==> Bare(line)[2] == '%')
  {
    hide IsSpace, CellOf, ParseIntPrefix, NumberField;
    var clean := Clean(line);
    assert clean == Bare(line);
    if |clean| >= RECORD_LENGTH {
      assert clean[..2] == [clean[0], clean[1]] && clean[3..5] == [clean[3], clean[4]];
      assert clean[..2] == "30" <==> clean[0] == '3' && clean[1] == '0';
      TableFieldIs(clean[3], clean[4]);
      CellIs(clean[5..12]);
      CellIs(clean[12..19]);
      forall k | 0 <= k < COLUMNS ensures ColumnAt(clean, k).Number? <==> ColumnField(clean, k) {
        CellIs(clean[19 + COLUMN_WIDTH * k..19 + COLUMN_WIDTH * k + COLUMN_WIDTH]);
      }
    }
  }

  /** A record whose table number reads `3x` is accepted as table 3, every other field as written. */
  lemma TableNumberMayTrailGarbage(d: nat, garbage: char, row: TaxRow)
    requires d < 10 && !IsDigit(garbage) && InRange(10 * d, row)
    ensures |RenderLine(10 * d, row)| == RECORD_LENGTH
    ensures ParseLine(RenderLine(10 * d, row)[4 := garbage]) == Accepted(d, row)
  {
    hide CellOf, Field, Fields, ParseIntPrefix, PadStart, Pow10, IsSpace, Numeral, InRange;
    RecordLayout(10 * d, row);
    var text := RenderLine(10 * d, row);
    var line := text[4 := garbage];
    TwoDigits(d);
    assert text[3] == text[3..5][0] == Digit(d);
    TableFieldIs(Digit(d), garbage);
    assert line[3..5] == [Digit(d), garbage];
    assert line[..2] == text[..2] && line[5..12] == text[5..12] && line[12..19] == text[12..19];
    forall k | 0 <= k < COLUMNS ensures ColumnAt(line, k) == ColumnAt(text, k) {
      assert line[19 + COLUMN_WIDTH * k..19 + COLUMN_WIDTH * k + COLUMN_WIDTH]
          == text[19 + COLUMN_WIDTH * k..19 + COLUMN_WIDTH * k + COLUMN_WIDTH];
    }
    assert seq(COLUMNS, k requires 0 <= k < COLUMNS => ColumnAt(line, k).value) == row.columns;
  }

  lemma TwoDigits(d: nat)
    requires d < 10
    ensures PadStart(Numeral(10 * d), 2, '0') == [Digit(d), '0']
  {
    hide Pow10, Value;
    if d == 0 {
      assert Repeat('0', 1) + Numeral(0) == [Digit(0), '0'];
    } else {
      assert 10 * d / 10 == d && 10 * d % 10 == 0;
      assert Numeral(10 * d) == [Digit(d)] + [Digit(0)];
    }
  }

  // ----- the file -----

  datatype Table = Table(number: int, rows: seq<TaxRow>)

  datatype Import = Failed | Imported(tables: seq<Table>)

  const LowerBound := (row: TaxRow) => row.incomeFrom as real
  const TableNumber := (t: Table) => t.number as real

  ghost predicate Breaks(line: string) {
    Trim(line) != "" && ParseLine(line).Malformed?
  }

  ghost predicate Kept(line: string) {
    Trim(line) != "" && ParseLine(line).Accepted?
  }

  /** The accepted rows of one table, in file order. */
  ghost function RowsOf(lines: seq<string>, table: int): seq<TaxRow> {
    if lines == [] then []
    else
      var last := lines[|lines| - 1];
      RowsOf(lines[..|lines| - 1], table) + (if Kept(last)
          && ParseLine(last).table == table then [ParseLine(last).row] else [])
  }

  ghost predicate Gathered(byTable: map<int, seq<TaxRow>>, lines: seq<string>) {
    && (forall t :: t in byTable ==> byTable[t] == RowsOf(lines, t) != [])
    && (forall t :: t !in byTable ==> RowsOf(lines, t) == [])
  }

  lemma NothingGathered()
    ensures Gathered(map[], [])
  {
  }

  lemma GatheredGrows(byTable: map<int, seq<TaxRow>>, lines: seq<string>, line: string)
    requires Gathered(byTable, lines)
    ensures !Kept(line) ==> Gathered(byTable, lines + [line])
    ensures Kept(line) ==>
              var p := ParseLine(line);
              Gathered(byTable[p.table := (if p.table in byTable then byTable[p.table] else []) + [p.row]],
                  lines + [line])
  {
    hide ParseLine, Trim;
    assert (lines + [line])[..|lines|] == lines;
  }

  /** The keys of the map, each once. */
  ghost predicate Keys<V>(order: seq<int>, m: map<int, V>) {
    && (forall i, j :: 0 <= i < j < |order| ==> order[i] != order[j])
    && (forall i :: 0 <= i < |order| ==> order[i] in m)
    && (forall t :: t in m ==> exists i :: 0 <= i < |order| && order[i] == t)
  }

  lemma NoKeys<V>()
    ensures Keys<V>([], map[])
  {
  }

  lemma KeysGrow<V>(order: seq<int>, m: map<int, V>, t: int, v: V)
    requires Keys(order, m)
    ensures t in m ==> Keys(order, m[t := v])
    ensures t !in m ==> Keys(order + [t], m[t := v])
  {
    if t !in m {
      var longer, larger := order + [t], m[t := v];
      forall u | u in larger ensures exists i :: 0 <= i < |longer| && longer[i] == u {
        if u == t {
          assert longer[|order|] == u;
        } else {
          var i :| 0 <= i < |order| && order[i] == u;
          assert longer[i] == u;
        }
      }
    }
  }

  /** `order` is the map's own, that of insertion. */
  method GatherRows(lines: seq<string>) returns (byTable: Option<map<int, seq<TaxRow>>>, order: seq<int>)
    ensures byTable.None? <==> exists line :: line in lines && Breaks(line)
    ensures byTable.Some? ==> Gathered(byTable.value, lines)
    ensures byTable.Some? ==> Keys(order, byTable.value)
  {
    hide ParseLine, Trim, Gathered, RowsOf, Keys;
    var rows: map<int, seq<TaxRow>> := map[];
    order := [];
    NothingGathered();
    assert Keys(order, rows) by { NoKeys<seq<TaxRow>>(); }
    for i := 0 to |lines|
      invariant Gathered(rows, lines[..i])
      invariant Keys(order, rows)
      invariant forall k :: 0 <= k < i ==> !Breaks(lines[k])
    {
      var line := lines[i];
      assert lines[..i + 1] == lines[..i] + [line];
      GatheredGrows(rows, lines[..i], line);
      if Trim(line) != "" {
        var parsed := ParseLine(line);
        match parsed {
          case Malformed =>
            assert Breaks(line);
            return None, [];
          case Skipped =>
          case Accepted(table, row) =>
            var existing := if table in rows then rows[table] else [];
            KeysGrow(order, rows, table, existing + [row]);
            if table !in rows {
              order := order + [table];
            }
            rows := rows[table := existing + [row]];
        }
      }
    }
    assert lines[..|lines|] == lines;
    byTable := Some(rows);
  }

  /** One table's rows: ordered by lower bound, equal bounds in file order, none lost and none added. */
  ghost predicate SortedFrom(rows: seq<TaxRow>, original: seq<TaxRow>) {
    && (forall i, j :: 0 <= i < j < |rows| ==> rows[i].incomeFrom <= rows[j].incomeFrom)
    && multiset(rows) == multiset(original)
    && forall from: nat :: RowsFrom(rows, from) == RowsFrom(original, from)
  }

  /** The rows of one lower bound, in order. */
  ghost function RowsFrom(rows: seq<TaxRow>, from: nat): seq<TaxRow> {
    if rows == [] then []
    else
      var last := rows[|rows| - 1];
      RowsFrom(rows[..|rows| - 1], from) + (if last.incomeFrom == from then [last] else [])
  }

  lemma {:induction false} RowsFromIsWith(rows: seq<TaxRow>, from: nat)
    ensures RowsFrom(rows, from) == StableSort.With(rows, LowerBound, from as real)
  {
    if rows != [] {
      RowsFromIsWith(rows[..|rows| - 1], from);
    }
  }

  lemma RowsAreSorted(rows: seq<TaxRow>)
    ensures SortedFrom(StableSort.Sort(rows, LowerBound), rows)
  {
    var sorted := StableSort.Sort(rows, LowerBound);
    StableSort.SortSorts(rows, LowerBound);
    forall i, j | 0 <= i < j < |sorted| ensures sorted[i].incomeFrom <= sorted[j].incomeFrom {
      assert LowerBound(sorted[i]) <= LowerBound(sorted[j]);
    }
    forall from: nat ensures RowsFrom(sorted, from) == RowsFrom(rows, from) {
      StableSort.SortIsStable(rows, LowerBound, from as real);
      RowsFromIsWith(sorted, from);
      RowsFromIsWith(rows, from);
    }
  }

  ghost predicate TableIs(t: Table, lines: seq<string>) {
    t.rows != [] && SortedFrom(t.rows, RowsOf(lines, t.number))
  }

  method ParseFile(lines: seq<string>) returns (result: Import)
    ensures result == Failed <==> exists line :: line in lines && Breaks(line)
    ensures result.Imported? ==>
              && (forall i, j :: 0 <= i < j < |result.tables| ==> result.tables[i].number < result.tables[j].number)
              && (forall t :: t in result.tables ==> TableIs(t, lines))
              && (forall number :: RowsOf(lines, number) != [] ==> exists t :: t in result.tables && t.number == number)
  {
    hide ParseLine, Trim, RowsOf, SortedFrom;
    var gathered, order := GatherRows(lines);
    if gathered.None? {
      return Failed;
    }
    var byTable := gathered.value;
    var entries: seq<Table> := [];
    for i := 0 to |order|
      invariant |entries| == i
      invariant forall k :: 0 <= k < i ==> entries[k].number == order[k] && TableIs(entries[k], lines)
    {
      var rows := byTable[order[i]];
      RowsAreSorted(rows);
      var t := Table(order[i], StableSort.Sort(rows, LowerBound));
      SortedIsTable(t, lines, rows);
      entries := entries + [t];
    }
    StableSort.SortSorts(entries, TableNumber);
    StableSort.SortKeepsMembers(entries, TableNumber);
    StableSort.SortKeepsKeysDistinct(entries, TableNumber);
    result := Imported(StableSort.Sort(entries, TableNumber));
    forall i, j | 0 <= i < j < |result.tables| ensures result.tables[i].number < result.tables[j].number {
      assert TableNumber(result.tables[i]) <= TableNumber(result.tables[j]);
      assert TableNumber(result.tables[i]) != TableNumber(result.tables[j]);
    }
    forall number | RowsOf(lines, number) != []
      ensures exists t :: t in result.tables && t.number == number
    {
      var k :| 0 <= k < |order| && order[k] == number;
      assert entries[k] in result.tables;
    }
  }

  lemma SortedIsTable(t: Table, lines: seq<string>, original: seq<TaxRow>)
    requires SortedFrom(t.rows, original) && original == RowsOf(lines, t.number) != []
    ensures TableIs(t, lines)
  {
    assert |multiset(t.rows)| == |multiset(original)|;
  }

  // ----- both sections -----

  function PercentRows(rows: seq<TaxRow>): nat {
    if rows == [] then 0 else PercentRows(rows[..|rows| - 1]) + (if rows[|rows| - 1].isPercent then 1 else 0)
  }

  lemma {:induction false} PercentRowsCounts(rows: seq<TaxRow>)
    ensures PercentRows(rows) <= |rows|
    ensures PercentRows(rows) > 0 <==> exists row :: row in rows && row.isPercent
    ensures PercentRows(rows) < |rows| <==> exists row :: row in rows && !row.isPercent
  {
    if rows != [] {
      PercentRowsCounts(rows[..|rows| - 1]);
      assert rows == rows[..|rows| - 1] + [rows[|rows| - 1]];
    }
  }

  predicate HasBothSections(t: Table) {
    PercentRows(t.rows) != 0 && PercentRows(t.rows) != |t.rows|
  }

  ghost predicate SomethingRead(lines: seq<string>) {
    exists number :: RowsOf(lines, number) != []
  }

  /** The import goes ahead only when no line broke, something was read, and no table misses a section. */
  method ImportTables(lines: seq<string>) returns (result: Import)
    ensures result.Imported? ==>
              && result.tables != []
              && forall t :: t in result.tables ==>
                   && TableIs(t, lines)
                   && (exists row :: row in t.rows && row.isPercent) && (exists row :: row in t.rows && !row.isPercent)
    ensures result.Imported? <==>
              && (forall line :: line in lines ==> !Breaks(line))
              && SomethingRead(lines)
              && (forall number :: RowsOf(lines, number) != [] ==> BothIn(RowsOf(lines, number)))
  {
    hide ParseLine, Trim, RowsOf, SortedFrom;
    result := ParseFile(lines);
    if result == Failed {
      return;
    }
    if result.tables == [] {
      return Failed;
    }
    assert result.tables[0] in result.tables;
    for i := 0 to |result.tables|
      invariant forall k :: 0 <= k < i ==> BothIn(result.tables[k].rows)
    {
      var t := result.tables[i];
      assert t in result.tables;
      PercentRowsCounts(t.rows);
      SortingKeepsSections(t, lines);
      if !HasBothSections(t) {
        assert !BothIn(RowsOf(lines, t.number)) && RowsOf(lines, t.number) != [];
        return Failed;
      }
    }
    forall t | t in result.tables ensures BothIn(t.rows) && RowsOf(lines, t.number) != []
        && BothIn(RowsOf(lines, t.number)) {
      SortingKeepsSections(t, lines);
    }
    forall number | RowsOf(lines, number) != [] ensures BothIn(RowsOf(lines, number)) {
      var t :| t in result.tables && t.number == number;
    }
    assert RowsOf(lines, result.tables[0].number) != [];
  }

  ghost predicate BothIn(rows: seq<TaxRow>) {
    (exists row :: row in rows && row.isPercent) && (exists row :: row in rows && !row.isPercent)
  }

  lemma SortingKeepsSections(t: Table, lines: seq<string>)
    requires TableIs(t, lines)
    ensures BothIn(t.rows) <==> BothIn(RowsOf(lines, t.number))
    ensures RowsOf(lines, t.number) != []
  {
    var original := RowsOf(lines, t.number);
    forall row ensures row in t.rows <==> row in original {
      assert row in t.rows <==> row in multiset(t.rows);
      assert row in original <==> row in multiset(original);
    }
    assert t.rows[0] in original;
  }
}
