/**
 * The CSV writer of src/common/export/tabular.ts and the CSV reader of
 * src/common/spreadsheet.ts, against the files RFC 4180, section 2 describes.
 */
module Csv {
  import opened Wrappers

  const BOM := '\U{FEFF}'
  const MAX_SHEET_ROWS := 500

  // ----- the writer -----

  datatype Column = Column(key: string, header: string, money: bool)

  /** One exported record; a missing key is a null or undefined value. */
  type Record = map<string, string>

  function FormatCell(row: Record, key: string): string {
    if key in row then row[key] else ""
  }

  predicate IsSpecial(c: char) {
    c == '"' || c == '\n' || c == '\r' || c == ','
  }

  predicate HasSpecial(field: string) {
    exists k :: 0 <= k < |field| && IsSpecial(field[k])
  }

  function Doubled(field: string): string {
    if field == "" then "" else (if field[0] == '"' then "\"\"" else [field[0]]) + Doubled(field[1..])
  }

  function EscapeField(field: string): string {
    if HasSpecial(field) then "\"" + Doubled(field) + "\"" else field
  }

  /** `^[\t\r]*[=+@-]` */
  predicate LooksLikeFormula(field: string) {
    field != ""
    && (field[0] in "=+@-" || ((field[0] == '\t' || field[0] == '\r') && LooksLikeFormula(field[1..])))
  }

  function Neutralized(field: string): string {
    if LooksLikeFormula(field) then "'" + field else field
  }

  /** What a column shows of a row, before it is escaped. */
  function ShownCell(row: Record, column: Column): string {
    var value := FormatCell(row, column.key);
    if column.money then value else Neutralized(value)
  }

  function HeaderCells(columns: seq<Column>): seq<string> {
    seq(|columns|, k requires 0 <= k < |columns| => columns[k].header)
  }

  function ShownCells(row: Record, columns: seq<Column>): seq<string> {
    seq(|columns|, k requires 0 <= k < |columns| => ShownCell(row, columns[k]))
  }

  /** The rows the table shows: its header, then every record. */
  function ShownRows(columns: seq<Column>, rows: seq<Record>): seq<seq<string>> {
    [HeaderCells(columns)] + seq(|rows|, k requires 0 <= k < |rows| => ShownCells(rows[k], columns))
  }

  // ----- the files of RFC 4180 -----

  /** A field as it stands in the file: enclosed in quotes or not. */
  datatype FileField = FileField(text: string, enclosed: bool)

  /** A record and its line break, CRLF or bare LF. */
  datatype FileRecord = FileRecord(fields: seq<FileField>, crlf: bool)

  predicate IsFileField(f: FileField) {
    f.enclosed || !HasSpecial(f.text)
  }

  predicate IsFileRecord(r: FileRecord) {
    r.fields != [] && forall k :: 0 <= k < |r.fields| ==> IsFileField(r.fields[k])
  }

  function FieldText(f: FileField): string {
    if f.enclosed then "\"" + Doubled(f.text) + "\"" else f.text
  }

  function FieldsText(fields: seq<FileField>): string {
    if fields == [] then ""
    else if |fields| == 1 then FieldText(fields[0])
    else FieldText(fields[0]) + "," + FieldsText(fields[1..])
  }

  function LineBreak(r: FileRecord): string {
    if r.crlf then "\r\n" else "\n"
  }

  function RecordText(record: FileRecord): string {
    FieldsText(record.fields) + LineBreak(record)
  }

  function FileText(records: seq<FileRecord>): string {
    if records == [] then "" else RecordText(records[0]) + FileText(records[1..])
  }

  function TextsOf(fields: seq<FileField>): seq<string> {
    seq(|fields|, k requires 0 <= k < |fields| => fields[k].text)
  }

  // ----- the reader -----

  datatype SheetRow = SheetRow(rowNumber: nat, cells: seq<string>)

  datatype Reader = Reader(rows: seq<SheetRow>, cells: seq<string>, field: string, quoted: bool)

  function EndRow(r: Reader): Reader {
    Reader(r.rows + [SheetRow(|r.rows| + 1, r.cells + [r.field])], [], "", r.quoted)
  }

  /** How many characters one turn of the loop takes, and what it makes of them. */
  function Step(r: Reader, text: string): (Reader, nat)
    requires text != ""
  {
    var c := text[0];
    if r.quoted then
      if c != '"' then (r.(field := r.field + [c]), 1)
      else if |text| > 1 && text[1] == '"' then (r.(field := r.field + "\""), 2)
      else (r.(quoted := false), 1)
    else if c == '"' then (r.(quoted := true), 1)
    else if c == ',' then (r.(cells := r.cells + [r.field], field := ""), 1)
    else if c == '\n' then (EndRow(r), 1)
    else if c == '\r' then (r, 1)
    else (r.(field := r.field + [c]), 1)
  }

  function Scan(r: Reader, text: string): Reader
    decreases |text|
  {
    if text == "" then r
    else
      var (next, taken) := Step(r, text);
      Scan(next, text[taken..])
  }

  function Finish(r: Reader): seq<SheetRow> {
    if r.field != "" || r.cells != [] then EndRow(r).rows else r.rows
  }

  const FRESH := Reader([], [], "", false)

  function Parsed(text: string): seq<SheetRow> {
    Finish(Scan(FRESH, text))
  }

  /** `parseCsv`: one pass over the text. */
  method ParseCsv(text: string) returns (rows: seq<SheetRow>)
    ensures rows == Parsed(text)
  {
    rows := [];
    var cells: seq<string> := [];
    var field, quoted, i := "", false, 0;
    while i < |text|
      invariant 0 <= i <= |text|
      invariant Scan(Reader(rows, cells, field, quoted), text[i..]) == Scan(FRESH, text)
    {
      var ch := text[i];
      assert text[i..][1..] == text[i + 1..];
      assert i + 1 < |text| ==> text[i..][1] == text[i + 1] && text[i..][2..] == text[i + 2..];
      if quoted {
        if ch == '"' {
          if i + 1 < |text| && text[i + 1] == '"' {
            field := field + "\"";
            i := i + 1;
          } else {
            quoted := false;
          }
        } else {
          field := field + [ch];
        }
      } else if ch == '"' {
        quoted := true;
      } else if ch == ',' {
        cells := cells + [field];
        field := "";
      } else if ch == '\n' {
        rows := rows + [SheetRow(|rows| + 1, cells + [field])];
        cells := [];
        field := "";
      } else if ch != '\r' {
        field := field + [ch];
      }
      i := i + 1;
    }
    if field != "" || |cells| > 0 {
      rows := rows + [SheetRow(|rows| + 1, cells + [field])];
    }
  }

  datatype SheetError = SheetTooLarge(rowCount: nat)

  /** `readSpreadsheet` on a .csv upload, its bytes decoded. */
  method ReadSpreadsheet(text: string) returns (result: Result<seq<SheetRow>, SheetError>)
    ensures var rows := Parsed(WithoutBom(text));
            result == if |rows| > 500 then Err(SheetTooLarge(|rows|)) else Ok(rows)
  {
    var rows := ParseCsv(WithoutBom(text));
    if |rows| > MAX_SHEET_ROWS {
      return Err(SheetTooLarge(|rows|));
    }
    return Ok(rows);
  }

  function WithoutBom(text: string): string {
    if text != "" && text[0] == BOM then text[1..] else text
  }

  // ----- the reader reads every such file -----

  lemma {:induction false} PlainScans(r: Reader, field: string, rest: string)
    requires !r.quoted && !HasSpecial(field)
    ensures Scan(r, field + rest) == Scan(r.(field := r.field + field), rest)
    decreases |field|
  {
    if field == "" {
      assert field + rest == rest && r.field + field == r.field;
    } else {
      assert !IsSpecial(field[0]);
      assert (field + rest)[1..] == field[1..] + rest;
      forall k | 0 <= k < |field[1..]| ensures !IsSpecial(field[1..][k]) {
        assert field[1..][k] == field[k + 1];
      }
      PlainScans(r.(field := r.field + [field[0]]), field[1..], rest);
      assert r.field + [field[0]] + field[1..] == r.field + field;
    }
  }

  lemma {:induction false} EnclosedScans(r: Reader, field: string, rest: string)
    requires r.quoted && (rest == "" || rest[0] != '"')
    ensures Scan(r, Doubled(field) + ("\"" + rest)) == Scan(r.(field := r.field + field, quoted := false), rest)
    decreases |field|
  {
    var text := Doubled(field) + ("\"" + rest);
    if field == "" {
      assert text == "\"" + rest && text[1..] == rest && r.field + field == r.field;
    } else {
      var after := Doubled(field[1..]) + ("\"" + rest);
      assert text == (if field[0] == '"' then "\"\"" else [field[0]]) + after;
      assert field[0] == '"' ==> text[2..] == after;
      assert field[0] != '"' ==> text[1..] == after;
      EnclosedScans(r.(field := r.field + [field[0]]), field[1..], rest);
      assert r.field + [field[0]] + field[1..] == r.field + field;
    }
  }

  lemma {:induction false} FieldScans(r: Reader, f: FileField, rest: string)
    requires !r.quoted && r.field == "" && IsFileField(f) && (rest == "" || rest[0] != '"')
    ensures Scan(r, FieldText(f) + rest) == Scan(r.(field := f.text), rest)
  {
    if f.enclosed {
      var text := FieldText(f) + rest;
      assert text[1..] == Doubled(f.text) + ("\"" + rest);
      EnclosedScans(r.(quoted := true), f.text, rest);
      assert r.field + f.text == f.text;
    } else {
      PlainScans(r, f.text, rest);
      assert r.field + f.text == f.text;
    }
  }

  /** The reader once these fields are read: all but the last in `cells`, and that one in `field`. */
  function Filled(r: Reader, texts: seq<string>): Reader
    requires texts != []
  {
    r.(cells := r.cells + texts[..|texts| - 1], field := texts[|texts| - 1])
  }

  lemma {:induction false} FieldsScan(r: Reader, fields: seq<FileField>, rest: string)
    requires !r.quoted && r.field == "" && fields != [] && (rest == "" || rest[0] != '"')
    requires forall k :: 0 <= k < |fields| ==> IsFileField(fields[k])
    ensures Scan(r, FieldsText(fields) + rest) == Scan(Filled(r, TextsOf(fields)), rest)
    decreases |fields|
  {
    if |fields| == 1 {
      FieldScans(r, fields[0], rest);
      assert r.cells + TextsOf(fields)[..0] == r.cells;
    } else {
      FirstFieldScans(r, fields, rest);
      FieldsScan(r.(cells := r.cells + [fields[0].text]), fields[1..], rest);
      FilledOn(r, fields);
    }
  }

  lemma {:induction false} FirstFieldScans(r: Reader, fields: seq<FileField>, rest: string)
    requires !r.quoted && r.field == "" && |fields| > 1 && IsFileField(fields[0])
    ensures Scan(r, FieldsText(fields) + rest)
         == Scan(r.(cells := r.cells + [fields[0].text]), FieldsText(fields[1..]) + rest)
  {
    var after := FieldsText(fields[1..]) + rest;
    assert FieldsText(fields) + rest == FieldText(fields[0]) + ("," + after);
    FieldScans(r, fields[0], "," + after);
    CommaScans(r.(field := fields[0].text), after);
  }

  lemma {:induction false} FilledOn(r: Reader, fields: seq<FileField>)
    requires |fields| > 1
    ensures Filled(r.(cells := r.cells + [fields[0].text]), TextsOf(fields[1..])) == Filled(r, TextsOf(fields))
  {
    var texts, texts' := TextsOf(fields), TextsOf(fields[1..]);
    assert texts == [fields[0].text] + texts';
    assert r.cells + [fields[0].text] + texts'[..|texts'| - 1] == r.cells + texts[..|texts| - 1];
  }

  lemma {:induction false} CommaScans(r: Reader, rest: string)
    requires !r.quoted
    ensures Scan(r, "," + rest) == Scan(r.(cells := r.cells + [r.field], field := ""), rest)
  {
    assert ("," + rest)[1..] == rest;
  }

  lemma {:induction false} BreakScans(r: Reader, record: FileRecord, rest: string)
    requires !r.quoted
    ensures Scan(r, LineBreak(record) + rest) == Scan(EndRow(r), rest)
  {
    var after := LineBreak(record) + rest;
    assert after == (if record.crlf then ['\r'] else []) + (['\n'] + rest);
    assert record.crlf ==> after[1..] == ['\n'] + rest;
    assert (['\n'] + rest)[1..] == rest;
    assert Scan(r, after) == Scan(r, ['\n'] + rest);
  }

  /** A whole record becomes one row, numbered after those before it. */
  lemma {:induction false} RecordScans(rows: seq<SheetRow>, record: FileRecord, rest: string)
    requires IsFileRecord(record)
    ensures Scan(Reader(rows, [], "", false), FieldsText(record.fields) + LineBreak(record) + rest)
         == Scan(Reader(rows + [SheetRow(|rows| + 1, TextsOf(record.fields))], [], "", false), rest)
  {
    var r, texts := Reader(rows, [], "", false), TextsOf(record.fields);
    var after := LineBreak(record) + rest;
    assert FieldsText(record.fields) + LineBreak(record) + rest == FieldsText(record.fields) + after;
    FieldsScan(r, record.fields, after);
    BreakScans(Filled(r, texts), record, rest);
    LastFieldEnds(r, texts);
  }

  /** Ending the row after its last field. */
  lemma {:induction false} LastFieldEnds(r: Reader, texts: seq<string>)
    requires texts != [] && r.cells == []
    ensures EndRow(Filled(r, texts)) == Reader(r.rows + [SheetRow(|r.rows| + 1, texts)], [], "", r.quoted)
  {
    assert r.cells + texts[..|texts| - 1] + [texts[|texts| - 1]] == texts;
  }

  function NumberedFrom(start: nat, rows: seq<seq<string>>): seq<SheetRow> {
    seq(|rows|, k requires 0 <= k < |rows| => SheetRow(start + k, rows[k]))
  }

  function RowsOf(records: seq<FileRecord>): seq<seq<string>> {
    seq(|records|, k requires 0 <= k < |records| => TextsOf(records[k].fields))
  }

  predicate IsFile(records: seq<FileRecord>) {
    forall k :: 0 <= k < |records| ==> IsFileRecord(records[k])
  }

  lemma {:induction false} RecordsScan(rows: seq<SheetRow>, records: seq<FileRecord>, rest: string)
    requires IsFile(records)
    ensures Scan(Reader(rows, [], "", false), FileText(records) + rest)
         == Scan(Reader(rows + NumberedFrom(|rows| + 1, RowsOf(records)), [], "", false), rest)
    decreases |records|
  {
    if records == [] {
      assert FileText(records) + rest == rest && rows + NumberedFrom(|rows| + 1, RowsOf(records)) == rows;
    } else {
      var after := FileText(records[1..]) + rest;
      var rows' := rows + [SheetRow(|rows| + 1, TextsOf(records[0].fields))];
      assert FileText(records) + rest == FieldsText(records[0].fields) + LineBreak(records[0]) + after;
      RecordScans(rows, records[0], after);
      RecordsScan(rows', records[1..], rest);
      NumberingGoesOn(rows, records);
    }
  }

  lemma {:induction false} NumberingGoesOn(rows: seq<SheetRow>, records: seq<FileRecord>)
    requires records != []
    ensures var rows' := rows + [SheetRow(|rows| + 1, TextsOf(records[0].fields))];
            rows' + NumberedFrom(|rows'| + 1, RowsOf(records[1..])) == rows + NumberedFrom(|rows| + 1, RowsOf(records))
  {
  }

  /** Every file whose last record has its line break is read as its records, numbered from 1. */
  lemma {:induction false} ReadsEveryFile(records: seq<FileRecord>)
    requires IsFile(records)
    ensures Parsed(FileText(records)) == NumberedFrom(1, RowsOf(records))
  {
    RecordsScan([], records, "");
    assert FileText(records) + "" == FileText(records);
    assert [] + NumberedFrom(1, RowsOf(records)) == NumberedFrom(1, RowsOf(records));
  }

  lemma {:induction false} FieldsEnd(r: Reader, fields: seq<FileField>)
    requires IsFileRecord(FileRecord(fields, false)) && r.cells == [] && r.field == "" && !r.quoted
    ensures Scan(r, FieldsText(fields)) == Filled(r, TextsOf(fields))
  {
    FieldsScan(r, fields, "");
    assert FieldsText(fields) + "" == FieldsText(fields);
  }

  /** What is left when the text ends after a record's last field. */
  lemma {:induction false} OpenRecordFinishes(rows: seq<SheetRow>, texts: seq<string>)
    requires texts != []
    ensures Finish(Filled(Reader(rows, [], "", false), texts))
         == rows + (if texts == [""] then [] else [SheetRow(|rows| + 1, texts)])
  {
    var r := Reader(rows, [], "", false);
    LastFieldEnds(r, texts);
    assert Filled(r, texts).cells == texts[..|texts| - 1];
    assert |texts| == 1 ==> texts == [texts[0]];
  }

  /** Without that line break the last record is read too, unless it is one empty field, enclosed or not. */
  lemma {:induction false} ReadsAnOpenLastRecord(records: seq<FileRecord>, last: seq<FileField>)
    requires IsFile(records) && IsFileRecord(FileRecord(last, false))
    ensures Parsed(FileText(records) + FieldsText(last))
         == NumberedFrom(1, RowsOf(records)) + (if TextsOf(last) == [""] then [] else [SheetRow(|records| + 1, TextsOf(last))])
  {
    var rows, texts := NumberedFrom(1, RowsOf(records)), TextsOf(last);
    RecordsScan([], records, FieldsText(last));
    assert [] + rows == rows;
    FieldsEnd(Reader(rows, [], "", false), last);
    OpenRecordFinishes(rows, texts);
  }

  // ----- the writer writes such files -----

  /** The fields and lines `writeCsv` produces: enclosed only when they must be, ended by CRLF. */
  function Written(cells: seq<string>): FileRecord {
    FileRecord(seq(|cells|, k requires 0 <= k < |cells| => FileField(cells[k], HasSpecial(cells[k]))), true)
  }

  function WrittenRows(rows: seq<seq<string>>): seq<FileRecord> {
    seq(|rows|, k requires 0 <= k < |rows| => Written(rows[k]))
  }

  function Joined(parts: seq<string>): string {
    if parts == [] then ""
    else if |parts| == 1 then parts[0]
    else parts[0] + "," + Joined(parts[1..])
  }

  /** One line of the export. */
  function Line(cells: seq<string>): string {
    Joined(seq(|cells|, k requires 0 <= k < |cells| => EscapeField(cells[k]))) + "\r\n"
  }

  lemma {:induction false} JoinedIsFieldsText(parts: seq<string>, fields: seq<FileField>)
    requires |parts| == |fields| && forall k :: 0 <= k < |parts| ==> parts[k] == FieldText(fields[k])
    ensures Joined(parts) == FieldsText(fields)
  {
    if |parts| > 1 {
      JoinedIsFieldsText(parts[1..], fields[1..]);
    }
  }

  lemma {:induction false} LineIsARecord(cells: seq<string>)
    ensures Line(cells) == RecordText(Written(cells))
  {
    JoinedIsFieldsText(seq(|cells|, k requires 0 <= k < |cells| => EscapeField(cells[k])), Written(cells).fields);
  }

  lemma {:induction false} FileTextOpens(record: FileRecord, rest: seq<FileRecord>)
    ensures FileText([record] + rest) == RecordText(record) + FileText(rest)
  {
    assert ([record] + rest)[1..] == rest;
  }

  lemma {:induction false} Regrouped(a: string, b: string, c: string)
    ensures (a + b) + c == a + (b + c)
  {
  }

  lemma {:induction false} FileTextAppends(records: seq<FileRecord>, last: FileRecord)
    ensures FileText(records + [last]) == FileText(records) + RecordText(last)
  {
    if records == [] {
      FileTextOpens(last, []);
      assert [] + [last] == [last] == [last] + [];
    } else {
      var first, rest := records[0], records[1..];
      FileTextAppends(rest, last);
      FileTextOpens(first, rest);
      FileTextOpens(first, rest + [last]);
      assert [first] + rest == records && [first] + (rest + [last]) == records + [last];
      Regrouped(RecordText(first), FileText(rest), RecordText(last));
    }
  }

  /** The export of these rows of cells. */
  function Export(rows: seq<seq<string>>): string {
    [BOM] + FileText(WrittenRows(rows))
  }

  lemma {:induction false} LineAppends(before: seq<seq<string>>, cells: seq<string>)
    ensures Export(before + [cells]) == Export(before) + Line(cells)
  {
    LineIsARecord(cells);
    FileTextAppends(WrittenRows(before), Written(cells));
    assert WrittenRows(before + [cells]) == WrittenRows(before) + [Written(cells)];
  }

  lemma {:induction false} NextLine(shown: seq<seq<string>>, k: nat)
    requires k < |shown|
    ensures Export(shown[..k + 1]) == Export(shown[..k]) + Line(shown[k])
  {
    LineAppends(shown[..k], shown[k]);
    assert shown[..k + 1] == shown[..k] + [shown[k]];
  }

  /** `writeCsv`: the byte order mark, the header line, then a line for every record. */
  method WriteCsv(columns: seq<Column>, rows: seq<Record>) returns (sent: string)
    ensures sent == Export(ShownRows(columns, rows))
  {
    ghost var shown := ShownRows(columns, rows);
    sent := [BOM];
    sent := sent + Line(HeaderCells(columns));
    LineAppends([], HeaderCells(columns));
    assert [] + [HeaderCells(columns)] == shown[..1];
    var k := 0;
    while k < |rows|
      invariant 0 <= k <= |rows|
      invariant sent == Export(shown[..k + 1])
    {
      NextLine(shown, k + 1);
      sent := sent + Line(ShownCells(rows[k], columns));
      k := k + 1;
    }
    assert shown[..|rows| + 1] == shown;
  }

  /**
   * The round trip: an export is read back as its header row and exactly the
   * cells it showed, numbered 1 to n + 1, if and only if it has a column.
   */
  lemma {:induction false} ExportReadsBack(columns: seq<Column>, rows: seq<Record>)
    ensures Parsed(WithoutBom(Export(ShownRows(columns, rows)))) == NumberedFrom(1, ShownRows(columns, rows)) <==> columns != []
  {
    var shown := ShownRows(columns, rows);
    assert WithoutBom(Export(shown)) == FileText(WrittenRows(shown));
    if columns != [] {
      forall k | 0 <= k < |shown| ensures IsFileRecord(WrittenRows(shown)[k]) {
        assert |shown[k]| == |columns|;
      }
      ReadsEveryFile(WrittenRows(shown));
      forall k | 0 <= k < |shown| ensures TextsOf(WrittenRows(shown)[k].fields) == shown[k] {
      }
      assert RowsOf(WrittenRows(shown)) == shown;
    } else {
      NoColumns(rows);
      assert NumberedFrom(1, shown)[0].cells == [];
    }
  }

  /** Without columns every line is empty, and an empty line reads as one empty cell. */
  lemma {:induction false} NoColumns(rows: seq<Record>)
    ensures var read := Parsed(FileText(WrittenRows(ShownRows([], rows))));
            |read| == |rows| + 1 && forall k :: 0 <= k < |read| ==> read[k].cells == [""]
  {
    var shown := ShownRows([], rows);
    var blank := FileRecord([FileField("", false)], true);
    var blanks := seq(|shown|, _ => blank);
    BlankText(WrittenRows(shown), blanks);
    ReadsEveryFile(blanks);
  }

  lemma {:induction false} BlankText(a: seq<FileRecord>, b: seq<FileRecord>)
    requires |a| == |b| && forall k :: 0 <= k < |a| ==> FieldsText(a[k].fields) == FieldsText(b[k].fields) && a[k].crlf == b[k].crlf
    ensures FileText(a) == FileText(b)
  {
    if a != [] {
      BlankText(a[1..], b[1..]);
    }
  }

  /** No cell an export shows outside its money columns opens a formula, and only those cells that would have are changed. */
  lemma {:induction false} NoFormulas(columns: seq<Column>, rows: seq<Record>, k: nat, c: nat)
    requires k < |rows| && c < |columns| && !columns[c].money
    ensures var value, read := FormatCell(rows[k], columns[c].key), Parsed(WithoutBom(Export(ShownRows(columns, rows))));
            && k + 1 < |read| && |read[k + 1].cells| == |columns|
            && !LooksLikeFormula(read[k + 1].cells[c])
            && read[k + 1].cells[c] == (if LooksLikeFormula(value) then "'" + value else value)
  {
    ExportReadsBack(columns, rows);
  }

  /** A cell would open a formula if =, +, @ or - is the first of it that is no tab and no carriage return. */
  lemma {:induction false} FormulaCellIff(field: string)
    ensures LooksLikeFormula(field) <==> exists k ::
              && 0 <= k < |field| && (field[k] == '=' || field[k] == '+' || field[k] == '@' || field[k] == '-')
              && forall j :: 0 <= j < k ==> field[j] == '\t' || field[j] == '\r'
  {
    if field != "" {
      var tail := field[1..];
      FormulaCellIff(tail);
      if LooksLikeFormula(tail) {
        var k :| 0 <= k < |tail| && (tail[k] == '=' || tail[k] == '+' || tail[k] == '@' || tail[k] == '-')
                 && forall j :: 0 <= j < k ==> tail[j] == '\t' || tail[j] == '\r';
        assert field[k + 1] == tail[k] && forall j :: 0 < j < k + 1 ==> field[j] == tail[j - 1];
      }
      if k :| 0 < k < |field| && (field[k] == '=' || field[k] == '+' || field[k] == '@' || field[k] == '-')
              && forall j :: 0 <= j < k ==> field[j] == '\t' || field[j] == '\r' {
        assert tail[k - 1] == field[k] && forall j :: 0 <= j < k - 1 ==> tail[j] == field[j + 1];
        assert field[0] == '\t' || field[0] == '\r';
      }
    }
  }

  /** What an exported file says when it is read again: the headers, and in each row every column's value, a money column's as it is. */
  lemma {:induction false} ExportSays(columns: seq<Column>, rows: seq<Record>, k: nat, c: nat)
    requires k < |rows| && c < |columns|
    ensures var read, column := Parsed(WithoutBom(Export(ShownRows(columns, rows)))), columns[c];
            var value := if column.key in rows[k] then rows[k][column.key] else "";
            && |read| == |rows| + 1 && |read[0].cells| == |read[k + 1].cells| == |columns|
            && read[0].cells[c] == column.header
            && (column.money || !LooksLikeFormula(value) ==> read[k + 1].cells[c] == value)
            && (!column.money && LooksLikeFormula(value) ==> read[k + 1].cells[c] == ['\''] + value)
  {
    ExportReadsBack(columns, rows);
  }

  /** Outside quotes a carriage return is dropped, and a quote opens quotes in the middle of a field too. */
  lemma {:induction false} StrayCharacters(r: Reader, rest: string)
    requires !r.quoted
    ensures Scan(r, ['\r'] + rest) == Scan(r, rest)
    ensures Scan(r, ['"'] + rest) == Scan(r.(quoted := true), rest)
  {
    assert (['\r'] + rest)[1..] == rest && (['"'] + rest)[1..] == rest;
  }
}
