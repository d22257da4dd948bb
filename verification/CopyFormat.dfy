/** The exporter of app/storage/engine/convert.go and the text format of PostgreSQL's COPY
    ("File Formats", "Text Format" in the COPY documentation): what is written reads back. */
module CopyFormat {
  import opened Seqs
  import opened Decimals

  datatype Value =
    | Nil
    | Bytes(text: string)
    | Str(text: string)
    | Timestamp(year: nat, month: nat, day: nat, hour: nat, minute: nat, second: nat)
    | Bool(b: bool)
    | Int64(n: int)
    | Float64(rendered: PlainText)

  /** A text without the characters that need escapes, such as Go's rendering of a floating-point
      number, which is taken as given. */
  type PlainText = s: string | forall i :: 0 <= i < |s| ==> Plain(s[i])

  type Row = map<string, Value>

  /** A cell as PostgreSQL should see it: NULL or a text. */
  type Cell = Option<string>

  // ---- the printer ----

  /** strings.ReplaceAll for a one-character pattern */
  function ReplaceAll(s: string, c: char, repl: string): string {
    if s == [] then [] else (if s[0] == c then repl else [s[0]]) + ReplaceAll(s[1..], c, repl)
  }

  function Padded(n: nat, width: nat): string
    decreases width - |FormatNat(n)|
  {
    if |FormatNat(n)| >= width then FormatNat(n) else seq(width - |FormatNat(n)|, _ => '0') + FormatNat(n)
  }

  /** The text a value stands for. */
  function AsText(v: Value): Cell {
    match v
    case Nil => None
    case Bytes(s) => Some(s)
    case Str(s) => Some(s)
    case Timestamp(y, mo, d, h, mi, s) =>
      Some(Padded(y, 4) + "-" + Padded(mo, 2) + "-" + Padded(d, 2) + " "
           + Padded(h, 2) + ":" + Padded(mi, 2) + ":" + Padded(s, 2))
    case Bool(b) => Some(if b then "t" else "f")
    case Int64(n) => Some(FormatInt(n))
    case Float64(s) => Some(s)
  }

  /** The text of one column of a row: an absent column is NULL, and the integer flag
      detected_spam.added becomes a boolean. */
  function CellOf(table: string, row: Row, column: string): Cell {
    if column !in row then None
    else if table == "detected_spam" && column == "added" && row[column].Int64? then
      Some(if row[column].n == 0 then "f" else "t")
    else AsText(row[column])
  }

  function CellsOf(table: string, row: Row, columns: seq<string>): seq<Cell> {
    if columns == [] then [] else CellsOf(table, row, Init(columns)) + [CellOf(table, row, Last(columns))]
  }

  function TableCells(table: string, rows: seq<Row>, columns: seq<string>): seq<seq<Cell>> {
    if rows == [] then [] else TableCells(table, Init(rows), columns) + [CellsOf(table, Last(rows), columns)]
  }

  /** What one character becomes inside a field. */
  function EscapeChar(c: char): string {
    if c == '\\' then "\\\\"
    else if c == '\t' then "\\t"
    else if c == '\n' then "\\n"
    else if c == '\r' then "\\r"
    else [c]
  }

  function Escape(s: string): string {
    if s == [] then [] else EscapeChar(s[0]) + Escape(s[1..])
  }

  function FieldOf(cell: Cell): string {
    match cell
    case None => "\\N"
    case Some(s) => Escape(s)
  }

  function FieldsOf(cells: seq<Cell>): seq<string> {
    if cells == [] then [] else FieldsOf(Init(cells)) + [FieldOf(Last(cells))]
  }

  /** strings.Join */
  function Join(parts: seq<string>, sep: string): string {
    if parts == [] then "" else if |parts| == 1 then parts[0] else parts[0] + sep + Join(parts[1..], sep)
  }

  function LineOf(cells: seq<Cell>): string {
    Join(FieldsOf(cells), "\t") + "\n"
  }

  function LinesOf(rows: seq<seq<Cell>>): string {
    if rows == [] then "" else LinesOf(Init(rows)) + LineOf(Last(rows))
  }

  const END_MARKER := "\\."

  function Body(rows: seq<seq<Cell>>): string {
    LinesOf(rows) + END_MARKER + "\n\n"
  }

  /** The columns that are copied: all but the generated one of the samples table. */
  function CopyColumns(table: string, columns: seq<string>): seq<string> {
    if columns == [] then []
    else
      CopyColumns(table, Init(columns)) +
      if table == "samples" && Last(columns) == "message_hash" then [] else [Last(columns)]
  }

  lemma {:induction false} ReplaceAllConcat(a: string, b: string, c: char, repl: string)
    ensures ReplaceAll(a + b, c, repl) == ReplaceAll(a, c, repl) + ReplaceAll(b, c, repl)
  {
    if a == [] {
      assert a + b == b;
    } else {
      assert (a + b)[1..] == a[1..] + b;
      ReplaceAllConcat(a[1..], b, c, repl);
    }
  }

  function Sequential(s: string): string {
    ReplaceAll(ReplaceAll(ReplaceAll(ReplaceAll(s, '\\', "\\\\"), '\t', "\\t"), '\n', "\\n"), '\r', "\\r")
  }

  lemma ReplaceInPair(x: char, y: char, c: char, repl: string)
    ensures ReplaceAll([x], c, repl) == if x == c then repl else [x]
    ensures x != c && y != c ==> ReplaceAll([x, y], c, repl) == [x, y]
  {
    assert [x, y] == [x] + [y];
    ReplaceAllConcat([x], [y], c, repl);
    assert [x][1..] == [] && [y][1..] == [];
  }

  lemma SequentialOne(x: char)
    ensures Sequential([x]) == EscapeChar(x)
  {
    ReplaceInPair(x, x, '\\', "\\\\");
    ReplaceInPair(x, x, '\t', "\\t");
    ReplaceInPair(x, x, '\n', "\\n");
    ReplaceInPair(x, x, '\r', "\\r");
    ReplaceInPair('\\', '\\', '\t', "\\t");
    ReplaceInPair('\\', '\\', '\n', "\\n");
    ReplaceInPair('\\', '\\', '\r', "\\r");
    ReplaceInPair('\\', 't', '\n', "\\n");
    ReplaceInPair('\\', 't', '\r', "\\r");
    ReplaceInPair('\\', 'n', '\r', "\\r");
  }

  /** The four replacements, one after the other, equal one map over the characters: none of
      them touches what an earlier one wrote. */
  lemma {:induction false} SequentialIsEscape(s: string)
    ensures Sequential(s) == Escape(s)
  {
    if s != [] {
      var x, rest := s[..1], s[1..];
      assert s == x + rest && x == [s[0]];
      SequentialIsEscape(rest);
      SequentialOne(s[0]);
      ReplaceAllConcat(x, rest, '\\', "\\\\");
      var a, b := ReplaceAll(x, '\\', "\\\\"), ReplaceAll(rest, '\\', "\\\\");
      ReplaceAllConcat(a, b, '\t', "\\t");
      a, b := ReplaceAll(a, '\t', "\\t"), ReplaceAll(b, '\t', "\\t");
      ReplaceAllConcat(a, b, '\n', "\\n");
      a, b := ReplaceAll(a, '\n', "\\n"), ReplaceAll(b, '\n', "\\n");
      ReplaceAllConcat(a, b, '\r', "\\r");
    }
  }

  predicate Plain(c: char) {
    c != '\\' && c != '\t' && c != '\n' && c != '\r'
  }

  lemma {:induction false} EscapePlain(s: string)
    requires forall i :: 0 <= i < |s| ==> Plain(s[i])
    ensures Escape(s) == s
  {
    if s != [] {
      EscapePlain(s[1..]);
    }
  }

  lemma PaddedPlain(n: nat, width: nat)
    ensures forall i :: 0 <= i < |Padded(n, width)| ==> Plain(Padded(n, width)[i])
  {
  }

  /** formatPostgresValue */
  method FormatPostgresValue(value: Value) returns (s: string)
    ensures s == FieldOf(AsText(value))
  {
    hide Padded, ReplaceAll, FormatInt;
    match value {
      case Nil =>
        return "\\N";
      case Bytes(v) =>
        s := ReplaceAll(v, '\\', "\\\\");
        s := ReplaceAll(s, '\t', "\\t");
        s := ReplaceAll(s, '\n', "\\n");
        s := ReplaceAll(s, '\r', "\\r");
        SequentialIsEscape(v);
      case Str(v) =>
        s := ReplaceAll(v, '\\', "\\\\");
        s := ReplaceAll(s, '\t', "\\t");
        s := ReplaceAll(s, '\n', "\\n");
        s := ReplaceAll(s, '\r', "\\r");
        SequentialIsEscape(v);
      case Timestamp(y, mo, d, h, mi, sec) =>
        s := Padded(y, 4) + "-" + Padded(mo, 2) + "-" + Padded(d, 2) + " "
             + Padded(h, 2) + ":" + Padded(mi, 2) + ":" + Padded(sec, 2);
        PaddedPlain(y, 4); PaddedPlain(mo, 2); PaddedPlain(d, 2);
        PaddedPlain(h, 2); PaddedPlain(mi, 2); PaddedPlain(sec, 2);
        EscapePlain(s);
      case Bool(b) =>
        s := if b then "t" else "f";
        EscapePlain(s);
      case Int64(n) =>
        s := FormatInt(n);
        FormatIntChars(n);
        EscapePlain(s);
      case Float64(v) =>
        s := v;
        EscapePlain(s);
    }
  }

  /** exportTableData: header, one line a row, end marker; nothing at all for an empty table. */
  method ExportTableData(table: string, columns: seq<string>, rows: seq<Row>) returns (w: string)
    ensures rows == [] ==> w == ""
    ensures rows != [] ==>
      w == "-- Data for table " + table + "\n" +
           "COPY " + table + " (" + Join(CopyColumns(table, columns), ", ") + ") FROM stdin;\n" +
           Body(TableCells(table, rows, CopyColumns(table, columns)))
  {
    if |rows| == 0 {
      return "";
    }
    var copyColumns := columns;
    if table == "samples" && |columns| > 0 {
      copyColumns := FilterColumns(columns);
    } else {
      AllColumns(table, columns);
    }
    var header := "-- Data for table " + table + "\n"
      + "COPY " + table + " (" + Join(copyColumns, ", ") + ") FROM stdin;\n";
    var data := ExportRows(table, copyColumns, rows);
    w := header + (data + END_MARKER + "\n\n");
  }

  lemma {:induction false} AllColumns(table: string, columns: seq<string>)
    requires table != "samples" || columns == []
    ensures CopyColumns(table, columns) == columns
  {
    if columns != [] {
      AllColumns(table, Init(columns));
    }
  }

  /** The generated column of the samples table is not copied (lines 220-229). */
  method FilterColumns(columns: seq<string>) returns (copyColumns: seq<string>)
    ensures copyColumns == CopyColumns("samples", columns)
  {
    copyColumns := [];
    for i := 0 to |columns|
      invariant copyColumns == CopyColumns("samples", columns[..i])
    {
      assert Init(columns[..i + 1]) == columns[..i];
      if columns[i] != "message_hash" {
        copyColumns := copyColumns + [columns[i]];
      } else {
        assert copyColumns + [] == copyColumns;
      }
    }
    assert columns[..|columns|] == columns;
  }

  /** The row loop of exportTableData (lines 250-285). */
  method ExportRows(table: string, columns: seq<string>, rows: seq<Row>) returns (data: string)
    ensures data == LinesOf(TableCells(table, rows, columns))
  {
    data := "";
    for i := 0 to |rows|
      invariant data == LinesOf(TableCells(table, rows[..i], columns))
    {
      var values := FormatRow(table, columns, rows[i]);
      RowAppended(table, columns, rows, i);
      data := data + Join(values, "\t") + "\n";
    }
    assert rows[..|rows|] == rows;
  }

  lemma RowAppended(table: string, columns: seq<string>, rows: seq<Row>, i: nat)
    requires i < |rows|
    ensures LinesOf(TableCells(table, rows[..i + 1], columns)) ==
      LinesOf(TableCells(table, rows[..i], columns)) + LineOf(CellsOf(table, rows[i], columns))
  {
    assert Init(rows[..i + 1]) == rows[..i];
    var cells, last := TableCells(table, rows[..i], columns), CellsOf(table, rows[i], columns);
    assert Init(cells + [last]) == cells;
  }

  /** The inner loop of exportTableData (lines 257-279). */
  method FormatRow(table: string, columns: seq<string>, row: Row) returns (values: seq<string>)
    ensures values == FieldsOf(CellsOf(table, row, columns))
  {
    values := [];
    for i := 0 to |columns|
      invariant values == FieldsOf(CellsOf(table, row, columns[..i]))
    {
      var col := columns[i];
      assert Init(columns[..i + 1]) == columns[..i];
      ghost var cells := CellsOf(table, row, columns[..i]);
      InitLast(cells, [CellOf(table, row, col)]);
      assert Init(cells + [CellOf(table, row, col)]) == cells;
      EscapePlain("f");
      EscapePlain("t");
      if col !in row {
        values := values + ["\\N"];
      } else if table == "detected_spam" && col == "added" && row[col].Int64? {
        values := values + [if row[col].n == 0 then "f" else "t"];
      } else {
        var field := FormatPostgresValue(row[col]);
        values := values + [field];
      }
    }
    assert columns[..|columns|] == columns;
  }

  // ---- the reader, by the rules of the text format ----

  /** Cuts a text at the first separator that no backslash precedes. */
  function CutAt(s: string, sep: char): (string, Option<string>) {
    if s == [] then ([], None)
    else if s[0] == '\\' && |s| >= 2 then
      var (front, rest) := CutAt(s[2..], sep);
      (s[..2] + front, rest)
    else if s[0] == sep then ([], Some(s[1..]))
    else
      var (front, rest) := CutAt(s[1..], sep);
      ([s[0]] + front, rest)
  }

  lemma {:induction false} CutAtShorter(s: string, sep: char)
    ensures CutAt(s, sep).1.Some? ==> |CutAt(s, sep).1.value| < |s|
  {
    if s == [] {
    } else if s[0] == '\\' && |s| >= 2 {
      CutAtShorter(s[2..], sep);
    } else if s[0] != sep {
      CutAtShorter(s[1..], sep);
    }
  }

  predicate IsOctal(c: char) {
    '0' <= c <= '7'
  }

  function HexValue(c: char): Option<nat> {
    if '0' <= c <= '9' then Some(c as int - '0' as int)
    else if 'a' <= c <= 'f' then Some(c as int - 'a' as int + 10)
    else if 'A' <= c <= 'F' then Some(c as int - 'A' as int + 10)
    else None
  }

  /** One to three octal digits at the head of a text: how many, and their value. */
  function OctalAt(s: string): (r: (nat, nat))
    requires s != [] && IsOctal(s[0])
    ensures 1 <= r.0 <= |s|
  {
    var v0 := s[0] as int - '0' as int;
    if |s| < 2 || !IsOctal(s[1]) then (1, v0)
    else
      var v1 := 8 * v0 + (s[1] as int - '0' as int);
      if |s| < 3 || !IsOctal(s[2]) then (2, v1) else (3, 8 * v1 + (s[2] as int - '0' as int))
  }

  function ControlChar(c: char): char {
    match c
    case 'b' => '\U{0008}'
    case 'f' => '\U{000C}'
    case 'n' => '\n'
    case 'r' => '\r'
    case 't' => '\t'
    case 'v' => '\U{000B}'
    case _ => c
  }

  /** Undoes the backslash sequences of a field. */
  function Unescape(s: string): string
    decreases |s|
  {
    if s == [] then []
    else if s[0] != '\\' then [s[0]] + Unescape(s[1..])
    else if |s| == 1 then []
    else if IsOctal(s[1]) then
      var (len, v) := OctalAt(s[1..]);
      [(v % 256) as char] + Unescape(s[1 + len..])
    else if s[1] == 'x' && |s| > 2 && HexValue(s[2]).Some? then
      var hi := HexValue(s[2]).value;
      if |s| > 3 && HexValue(s[3]).Some? then [(16 * hi + HexValue(s[3]).value) as char] + Unescape(s[4..])
      else [hi as char] + Unescape(s[3..])
    else [ControlChar(s[1])] + Unescape(s[2..])
  }

  function ReadField(field: string): Cell {
    if field == "\\N" then None else Some(Unescape(field))
  }

  function ReadLine(line: string): seq<Cell>
    decreases |line|
  {
    CutAtShorter(line, '\t');
    var (field, rest) := CutAt(line, '\t');
    [ReadField(field)] + if rest.None? then [] else ReadLine(rest.value)
  }

  /** The rows up to the end marker; None when there is no marker. */
  function ReadRows(s: string): Option<seq<seq<Cell>>>
    decreases |s|
  {
    CutAtShorter(s, '\n');
    var (line, rest) := CutAt(s, '\n');
    if line == END_MARKER then Some([])
    else if rest.None? then None
    else
      match ReadRows(rest.value)
      case None => None
      case Some(rows) => Some([ReadLine(line)] + rows)
  }

  // ---- the round trip ----

  /** A text in which no separator stands bare and no backslash stands last. */
  predicate Closed(s: string, sep: char) {
    s == [] ||
    if s[0] == '\\' then |s| >= 2 && Closed(s[2..], sep) else s[0] != sep && Closed(s[1..], sep)
  }

  lemma {:induction false} CutClosed(s: string, sep: char, rest: string)
    requires Closed(s, sep) && sep != '\\'
    ensures CutAt(s + [sep] + rest, sep) == (s, Some(rest))
    ensures CutAt(s, sep) == (s, None)
    decreases |s|
  {
    var t := s + [sep] + rest;
    if s == [] {
      assert t == [sep] + rest;
      assert t[1..] == rest;
    } else if s[0] == '\\' {
      assert t[2..] == s[2..] + [sep] + rest && t[..2] == s[..2];
      CutClosed(s[2..], sep, rest);
      assert s[..2] + s[2..] == s;
    } else {
      assert t[1..] == s[1..] + [sep] + rest;
      CutClosed(s[1..], sep, rest);
      assert [s[0]] + s[1..] == s;
    }
  }

  lemma {:induction false} ClosedConcat(a: string, b: string, sep: char)
    requires Closed(a, sep) && Closed(b, sep)
    ensures Closed(a + b, sep)
    decreases |a|
  {
    if a == [] {
      assert a + b == b;
    } else if a[0] == '\\' {
      assert (a + b)[2..] == a[2..] + b;
      ClosedConcat(a[2..], b, sep);
    } else {
      assert (a + b)[1..] == a[1..] + b;
      ClosedConcat(a[1..], b, sep);
    }
  }

  lemma {:induction false} EscapeClosed(s: string, sep: char)
    requires sep == '\t' || sep == '\n'
    ensures Closed(Escape(s), sep)
  {
    if s != [] {
      EscapeClosed(s[1..], sep);
      var e := EscapeChar(s[0]);
      assert |e| == 2 ==> e[2..] == [];
      assert |e| == 1 ==> e[1..] == [];
      assert Closed([], sep);
      ClosedConcat(e, Escape(s[1..]), sep);
    }
  }

  lemma UnescapeHead(c: char, rest: string)
    ensures Unescape(EscapeChar(c) + rest) == [c] + Unescape(rest)
  {
    var e := EscapeChar(c);
    if |e| == 2 {
      assert (e + rest)[2..] == rest;
    } else {
      assert (e + rest)[1..] == rest;
    }
  }

  lemma {:induction false} UnescapeEscape(s: string)
    ensures Unescape(Escape(s)) == s
  {
    if s != [] {
      UnescapeEscape(s[1..]);
      UnescapeHead(s[0], Escape(s[1..]));
    }
  }

  /** A field that starts with a backslash goes on with one of the five codes written here. */
  lemma FieldStart(cell: Cell)
    ensures var f := FieldOf(cell);
      f != [] && f[0] == '\\' ==> |f| >= 2 && f[1] in ['\\', 't', 'n', 'r', 'N']
    ensures FieldOf(cell) == "\\N" <==> cell == None
  {
    if cell.Some? && cell.value != [] {
      var e := EscapeChar(cell.value[0]);
      assert Escape(cell.value)[..|e|] == e;
      assert |e| == 2 ==> Escape(cell.value)[1] == e[1];
    }
  }

  lemma FieldClosed(cell: Cell, sep: char)
    requires sep == '\t' || sep == '\n'
    ensures Closed(FieldOf(cell), sep)
  {
    if cell.Some? {
      EscapeClosed(cell.value, sep);
    } else {
      assert "\\N"[2..] == [];
    }
  }

  /** A single field reads back, NULL as NULL and a text as the text. */
  lemma FieldRoundTrip(cell: Cell)
    ensures ReadField(FieldOf(cell)) == cell
  {
    FieldStart(cell);
    if cell.Some? {
      UnescapeEscape(cell.value);
    }
  }

  lemma {:induction false} FieldsHead(cells: seq<Cell>)
    requires cells != []
    ensures FieldsOf(cells) == [FieldOf(cells[0])] + FieldsOf(cells[1..])
  {
    if |cells| > 1 {
      FieldsHead(Init(cells));
      assert Init(cells)[1..] == Init(cells[1..]);
    } else {
      assert Init(cells) == [] && cells[1..] == [];
    }
  }

  /** A line of at least one field reads back; it is never the end marker. */
  lemma {:induction false} LineRoundTrip(cells: seq<Cell>)
    requires cells != []
    ensures var line := Join(FieldsOf(cells), "\t");
      ReadLine(line) == cells && Closed(line, '\n') && line != END_MARKER
    decreases |cells|
  {
    var line, f := Join(FieldsOf(cells), "\t"), FieldOf(cells[0]);
    FieldsHead(cells);
    FieldRoundTrip(cells[0]);
    FieldClosed(cells[0], '\t');
    FieldClosed(cells[0], '\n');
    FieldStart(cells[0]);
    if |cells| == 1 {
      assert cells[1..] == [] && FieldsOf(cells) == [f] && line == f;
      CutClosed(f, '\t', "");
      assert [cells[0]] + [] == cells;
    } else {
      var more := Join(FieldsOf(cells[1..]), "\t");
      LineRoundTrip(cells[1..]);
      FieldsHead(cells[1..]);
      assert FieldsOf(cells)[1..] == FieldsOf(cells[1..]);
      assert line == f + "\t" + more == f + ['\t'] + more;
      CutClosed(f, '\t', more);
      assert [cells[0]] + cells[1..] == cells;
      assert Closed("\t", '\n') by {
        assert "\t"[1..] == [];
      }
      ClosedConcat(f, "\t", '\n');
      ClosedConcat(f + "\t", more, '\n');
      MarkerStart(f, more);
    }
  }

  lemma MarkerStart(f: string, more: string)
    requires f != [] && f[0] == '\\' ==> |f| >= 2 && f[1] != '.'
    ensures f + "\t" + more != END_MARKER
  {
    var line := f + "\t" + more;
    if f == [] {
      assert line[0] == '\t';
    } else {
      assert line[0] == f[0];
      assert |f| >= 2 ==> line[1] == f[1];
    }
  }

  lemma {:induction false} LinesHead(rows: seq<seq<Cell>>)
    requires rows != []
    ensures LinesOf(rows) == LineOf(rows[0]) + LinesOf(rows[1..])
  {
    hide LineOf;
    if |rows| > 1 {
      LinesHead(Init(rows));
      assert Init(rows)[1..] == Init(rows[1..]) && Init(rows)[0] == rows[0] && Last(rows) == Last(rows[1..]);
      var a, b, c := LineOf(rows[0]), LinesOf(Init(rows[1..])), LineOf(Last(rows));
      assert (a + b) + c == a + (b + c);
    } else {
      assert Init(rows) == [] && rows[1..] == [];
    }
  }

  lemma ReadFirstLine(line: string, rest: string)
    requires Closed(line, '\n') && line != END_MARKER
    ensures ReadRows(line + ['\n'] + rest) ==
      if ReadRows(rest).None? then None else Some([ReadLine(line)] + ReadRows(rest).value)
  {
    CutClosed(line, '\n', rest);
  }

  lemma ReadEnd()
    ensures ReadRows(Body([])) == Some([])
  {
    assert Body([]) == END_MARKER + ['\n'] + "\n";
    assert Closed(END_MARKER, '\n') by {
      assert END_MARKER[2..] == [];
    }
    CutClosed(END_MARKER, '\n', "\n");
  }

  lemma BodyHead(rows: seq<seq<Cell>>)
    requires rows != []
    ensures Body(rows) == Join(FieldsOf(rows[0]), "\t") + ['\n'] + Body(rows[1..])
  {
    LinesHead(rows);
  }

  /** The round trip: reading what was written returns exactly the table of NULLs and texts. */
  lemma {:induction false} BodyRoundTrip(rows: seq<seq<Cell>>)
    requires forall i :: 0 <= i < |rows| ==> rows[i] != []
    ensures ReadRows(Body(rows)) == Some(rows)
  {
    hide ReadRows, ReadLine, Body, Join, FieldsOf, Closed;
    if rows == [] {
      ReadEnd();
    } else {
      BodyHead(rows);
      LineRoundTrip(rows[0]);
      ReadFirstLine(Join(FieldsOf(rows[0]), "\t"), Body(rows[1..]));
      BodyRoundTrip(rows[1..]);
      assert [rows[0]] + rows[1..] == rows;
    }
  }

  /** A row has a cell for each column, in the order of the columns. */
  lemma {:induction false} CellsAre(table: string, row: Row, columns: seq<string>)
    ensures |CellsOf(table, row, columns)| == |columns|
    ensures forall i :: 0 <= i < |columns| ==> CellsOf(table, row, columns)[i] == CellOf(table, row, columns[i])
  {
    if columns != [] {
      CellsAre(table, row, Init(columns));
    }
  }

  lemma {:induction false} TableCellsAre(table: string, rows: seq<Row>, columns: seq<string>)
    ensures |TableCells(table, rows, columns)| == |rows|
    ensures forall j :: 0 <= j < |rows| ==> TableCells(table, rows, columns)[j] == CellsOf(table, rows[j], columns)
  {
    if rows != [] {
      TableCellsAre(table, Init(rows), columns);
    }
  }

  lemma CopyColumnsLast(table: string, columns: seq<string>)
    requires columns != []
    ensures CopyColumns(table, columns) == CopyColumns(table, Init(columns)) +
      if table == "samples" && Last(columns) == "message_hash" then [] else [Last(columns)]
  {
  }

  /** The columns copied are all of them, in their order, but for `message_hash` of the samples. */
  lemma {:induction false} CopyColumnsAre(table: string, columns: seq<string>) returns (at: seq<nat>)
    ensures |at| == |CopyColumns(table, columns)| && forall j, k :: 0 <= j < k < |at| ==> at[j] < at[k]
    ensures forall k :: 0 <= k < |at| ==> at[k] < |columns| && CopyColumns(table, columns)[k] == columns[at[k]]
    ensures forall i: nat :: i in at <==> i < |columns| && !(table == "samples" && columns[i] == "message_hash")
  {
    if columns == [] {
      at := [];
    } else {
      hide CopyColumns;
      var n: nat := |columns| - 1;
      at := CopyColumnsAre(table, Init(columns));
      CopyColumnsLast(table, columns);
      assert forall i :: 0 <= i < n ==> Init(columns)[i] == columns[i];
      if !(table == "samples" && columns[n] == "message_hash") {
        at := at + [n];
      }
    }
  }

  function Digit(n: nat, unit: nat): char
    requires unit > 0
  {
    DigitChar(n / unit % 10)
  }

  lemma PaddedTwo(n: nat)
    requires n < 100
    ensures Padded(n, 2) == [Digit(n, 10), Digit(n, 1)]
  {
    if n >= 10 {
      assert FormatNat(n) == [DigitChar(n / 10)] + [DigitChar(n % 10)];
    }
  }

  lemma PushDigit(n: nat)
    ensures FormatNat(n) == (if n < 10 then [] else FormatNat(n / 10)) + [Digit(n, 1)]
  {
  }

  lemma PaddedFour(n: nat)
    requires n < 10000
    ensures Padded(n, 4) == [Digit(n, 1000), Digit(n, 100), Digit(n, 10), Digit(n, 1)]
  {
    hide FormatNat;
    assert n / 10 / 10 == n / 100 && n / 100 / 10 == n / 1000;
    PushDigit(n);
    PushDigit(n / 10);
    PushDigit(n / 100);
    PushDigit(n / 1000);
  }

  /** What the values look like: a time has its six numbers in the usual places, with leading zeros. */
  lemma TextsAre(y: nat, mo: nat, d: nat, h: nat, mi: nat, s: nat, n: int, text: string)
    requires y < 10000 && mo < 100 && d < 100 && h < 100 && mi < 100 && s < 100
    ensures AsText(Nil) == None && AsText(Str(text)) == AsText(Bytes(text)) == Some(text)
    ensures AsText(Bool(true)) == Some("t") && AsText(Bool(false)) == Some("f")
    ensures AsText(Int64(n)) == Some(FormatInt(n))
    ensures AsText(Timestamp(y, mo, d, h, mi, s)) == Some([
      Digit(y, 1000), Digit(y, 100), Digit(y, 10), Digit(y, 1), '-', Digit(mo, 10), Digit(mo, 1), '-',
      Digit(d, 10), Digit(d, 1), ' ', Digit(h, 10), Digit(h, 1), ':', Digit(mi, 10), Digit(mi, 1), ':',
      Digit(s, 10), Digit(s, 1)])
  {
    hide Padded, FormatInt, Digit;
    PaddedFour(y);
    PaddedTwo(mo);
    PaddedTwo(d);
    PaddedTwo(h);
    PaddedTwo(mi);
    PaddedTwo(s);
    var time := AsText(Timestamp(y, mo, d, h, mi, s)).value;
    assert time == [
      Digit(y, 1000), Digit(y, 100), Digit(y, 10), Digit(y, 1), '-', Digit(mo, 10), Digit(mo, 1), '-',
      Digit(d, 10), Digit(d, 1), ' ', Digit(h, 10), Digit(h, 1), ':', Digit(mi, 10), Digit(mi, 1), ':',
      Digit(s, 10), Digit(s, 1)];
  }

  /** A missing column is NULL; the number that the old schema kept as the flag of detected spam
      becomes a truth value; every other cell is the text of its value. */
  lemma CellsMean(table: string, row: Row, column: string)
    ensures CellOf(table, row, column) ==
      if column !in row then None
      else if row[column].Int64? && table == "detected_spam" && column == "added" then
        Some(if row[column].n == 0 then "f" else "t")
      else AsText(row[column])
  {
  }

  lemma {:induction false} TableRowsNonEmpty(table: string, rows: seq<Row>, columns: seq<string>)
    requires columns != []
    ensures forall i :: 0 <= i < |TableCells(table, rows, columns)| ==> TableCells(table, rows, columns)[i] != []
  {
    if rows != [] {
      TableRowsNonEmpty(table, Init(rows), columns);
      CellsAre(table, Last(rows), columns);
    }
  }

  /** The data block that ExportTableData writes for a table with at least one copied column reads
      back: as many rows, with as many cells as there are copied columns, and each cell is that of its
      row and its column. */
  lemma ExportRoundTrip(table: string, rows: seq<Row>, columns: seq<string>)
    requires CopyColumns(table, columns) != []
    ensures var copied := CopyColumns(table, columns);
      var r := ReadRows(Body(TableCells(table, rows, copied)));
      && r.Some? && |r.value| == |rows|
      && (forall j :: 0 <= j < |rows| ==> |r.value[j]| == |copied|)
      && (forall j, i :: 0 <= j < |rows| && 0 <= i < |copied| ==> r.value[j][i] == CellOf(table, rows[j], copied[i]))
  {
    hide CopyColumns, ReadRows, Body, TableCells, CellsOf, CellOf;
    var copied := CopyColumns(table, columns);
    TableRowsNonEmpty(table, rows, copied);
    BodyRoundTrip(TableCells(table, rows, copied));
    TableCellsAre(table, rows, copied);
    forall j | 0 <= j < |rows|
      ensures |TableCells(table, rows, copied)[j]| == |copied|
      ensures forall i :: 0 <= i < |copied| ==>
        TableCells(table, rows, copied)[j][i] == CellOf(table, rows[j], copied[i])
    {
      CellsAre(table, rows[j], copied);
    }
  }

  /** A dictionary with one stop phrase, as it is written. */
  method ExportExample() returns (w: string)
    ensures w == "-- Data for table " + "dictionary" + "\n" +
      "COPY " + "dictionary" + " (" + "type, data" + ") FROM stdin;\n" + ("stop_phrase\tbuy\n" + "\\." + "\n\n")
  {
    hide LinesOf, TableCells, Join, CopyColumns;
    var row: Row := map["data" := Str("buy"), "type" := Str("stop_phrase")];
    w := ExportTableData("dictionary", ["type", "data"], [row]);
    DictionaryColumns();
    DictionaryRow(row);
  }

  lemma DictionaryColumns()
    ensures CopyColumns("dictionary", ["type", "data"]) == ["type", "data"]
    ensures Join(["type", "data"], ", ") == "type, data"
  {
    AllColumns("dictionary", ["type", "data"]);
    assert ["type", "data"][1..] == ["data"];
  }

  lemma DictionaryRow(row: Row)
    requires row == map["data" := Str("buy"), "type" := Str("stop_phrase")]
    ensures LinesOf(TableCells("dictionary", [row], ["type", "data"])) == "stop_phrase\tbuy\n"
  {
    hide TableCells, CellsOf, LinesOf, LineOf, Escape;
    var columns := ["type", "data"];
    TableCellsAre("dictionary", [row], columns);
    CellsAre("dictionary", row, columns);
    var cells := [Some("stop_phrase"), Some("buy")];
    assert CellsOf("dictionary", row, columns) == cells;
    assert TableCells("dictionary", [row], columns) == [cells];
    OneLine(cells);
    EscapePlain("stop_phrase");
    EscapePlain("buy");
    LineOfTwo(cells[0], cells[1]);
    assert "stop_phrase" + "\t" + "buy" + "\n" == "stop_phrase\tbuy\n";
  }

  lemma OneLine(cells: seq<Cell>)
    ensures LinesOf([cells]) == LineOf(cells)
  {
    hide LineOf;
    assert Init([cells]) == [] && LinesOf([]) == "";
  }

  lemma LineOfTwo(a: Cell, b: Cell)
    ensures LineOf([a, b]) == FieldOf(a) + "\t" + FieldOf(b) + "\n"
  {
    hide FieldOf;
    FieldsHead([a, b]);
    assert [a, b][1..] == [b];
    FieldsHead([b]);
    assert [b][1..] == [] && FieldsOf([]) == [];
    var fields := [FieldOf(a), FieldOf(b)];
    assert FieldsOf([a, b]) == fields && fields[1..] == [FieldOf(b)];
    assert Join([FieldOf(b)], "\t") == FieldOf(b);
    assert Join(fields, "\t") == FieldOf(a) + "\t" + FieldOf(b);
  }
}
