/**
 * The administrator's CSV export of every startup: a header line of twenty column names, then
 * one line per startup, newest first, joined with line feeds.
 *
 * A line is a list of cells joined with commas. The export renders some cells as they are, some
 * between double quotes with inner quotes doubled, and the tag list between double quotes with
 * nothing escaped. A strict reader of the comma-separated format of RFC 4180 is modelled beside
 * it, so that what a spreadsheet reads back can be stated: every line reads back as its cells'
 * texts exactly when no bare cell holds a comma, a quote or a line feed and the tag text holds
 * no quote.
 */
module CsvExport {
  import opened Wrappers
  import opened JsText
  import opened Types

  /** A text that can stand in a record without quotes (RFC 4180, section 2, `non-escaped`). */
  predicate Safe(t: string) {
    forall i :: 0 <= i < |t| ==> t[i] != ',' && t[i] != '"' && t[i] != '\n'
  }

  /** `t.replace(/"/g, '""')`. */
  function Escape(t: string): (r: string)
    ensures |r| >= |t|
    ensures '"' !in t ==> r == t
  {
    if t == [] then []
    else
      assert t == [t[0]] + t[1..];
      (if t[0] == '"' then "\"\"" else [t[0]]) + Escape(t[1..])
  }

  /** How one cell of a line is written. */
  datatype Cell =
    | Bare(text: string)              // the text as it is
    | Quoted(text: string)            // `"…"` with inner quotes doubled
    | QuotedUnescaped(text: string)   // `"…"` with the text as it is

  function Render(c: Cell): string {
    match c
    case Bare(t) => t
    case Quoted(t) => "\"" + Escape(t) + "\""
    case QuotedUnescaped(t) => "\"" + t + "\""
  }

  /** A cell a strict reader gets back unchanged. */
  predicate CellOk(c: Cell) {
    match c
    case Bare(t) => Safe(t)
    case Quoted(_) => true
    case QuotedUnescaped(t) => '"' !in t
  }

  predicate RowOk(cells: seq<Cell>) {
    |cells| >= 1 && forall i :: 0 <= i < |cells| ==> CellOk(cells[i])
  }

  function RenderAll(cells: seq<Cell>): (r: seq<string>)
    ensures |r| == |cells|
  {
    seq(|cells|, i requires 0 <= i < |cells| => Render(cells[i]))
  }

  function Texts(cells: seq<Cell>): (r: seq<string>)
    ensures |r| == |cells|
  {
    seq(|cells|, i requires 0 <= i < |cells| => cells[i].text)
  }

  /** `row.join(',')`. */
  function RenderRecord(cells: seq<Cell>): string {
    Join(RenderAll(cells), ",")
  }

  // A strict reader of RFC 4180 records separated by line feeds.

  predicate FieldBoundary(rest: string) { rest == [] || rest[0] == ',' || rest[0] == '\n' }

  predicate RecordBoundary(rest: string) { rest == [] || rest[0] == '\n' }

  function Prepend(c: char, o: Option<(string, string)>): Option<(string, string)> {
    match o
    case None => None
    case Some((f, rest)) => Some(([c] + f, rest))
  }

  /** The inside of a quoted field, after its opening quote: the text and what follows the closing quote. */
  function ParseQuotedBody(s: string): (r: Option<(string, string)>)
    ensures r.Some? ==> |r.value.1| < |s| && FieldBoundary(r.value.1)
    decreases |s|
  {
    if s == [] then None
    else if s[0] == '"' then
      if |s| > 1 && s[1] == '"' then Prepend('"', ParseQuotedBody(s[2..]))
      else if FieldBoundary(s[1..]) then Some(([], s[1..]))
      else None
    else Prepend(s[0], ParseQuotedBody(s[1..]))
  }

  /** An unquoted field: up to the next comma or line feed; a quote inside it is an error. */
  function ParseBare(s: string): (r: Option<(string, string)>)
    ensures r.Some? ==> |r.value.1| <= |s| && FieldBoundary(r.value.1)
  {
    if FieldBoundary(s) then Some(([], s))
    else if s[0] == '"' then None
    else Prepend(s[0], ParseBare(s[1..]))
  }

  function ParseField(s: string): (r: Option<(string, string)>)
    ensures r.Some? ==> |r.value.1| <= |s| && FieldBoundary(r.value.1)
  {
    if s != [] && s[0] == '"' then ParseQuotedBody(s[1..]) else ParseBare(s)
  }

  /** One record: its fields, and what follows it (nothing, or a line feed and more records). */
  function ParseRecord(s: string): (r: Option<(seq<string>, string)>)
    ensures r.Some? ==> |r.value.1| <= |s| && RecordBoundary(r.value.1) && |r.value.0| >= 1
    decreases |s|
  {
    match ParseField(s)
    case None => None
    case Some((f, rest)) =>
      if rest != [] && rest[0] == ',' then
        match ParseRecord(rest[1..])
        case None => None
        case Some((fs, r)) => Some(([f] + fs, r))
      else Some(([f], rest))
  }

  /** A whole file: its records, or `None` when it is not well formed. */
  function ParseFile(s: string): (r: Option<seq<seq<string>>>)
    ensures r.Some? ==> |r.value| >= 1
    decreases |s|
  {
    match ParseRecord(s)
    case None => None
    case Some((fs, rest)) =>
      if rest == [] then Some([fs])
      else
        match ParseFile(rest[1..])
        case None => None
        case Some(rs) => Some([fs] + rs)
  }

  /** A quoted text, its inner quotes doubled, reads back as the text. */
  lemma {:induction false} ParseQuotedEscaped(t: string, rest: string)
    requires FieldBoundary(rest)
    ensures ParseQuotedBody(Escape(t) + "\"" + rest) == Some((t, rest))
  {
    if t == [] {
      QuotedBodyClose(rest);
    } else {
      var u := Escape(t[1..]) + "\"" + rest;
      ParseQuotedEscaped(t[1..], rest);
      var head := EscapeHead(t);
      Regroup(head, Escape(t[1..]), "\"", rest);
      if t[0] == '"' {
        QuotedBodyPair(u);
      } else {
        QuotedBodyChar(t[0], u);
      }
      assert [t[0]] + t[1..] == t;
    }
  }

  /** The escaped first character: the text's escape begins with it, followed by the escape of the rest. */
  lemma EscapeHead(t: string) returns (head: string)
    requires t != []
    ensures head == (if t[0] == '"' then "\"\"" else [t[0]])
    ensures Escape(t) == head + Escape(t[1..])
  {
    head := if t[0] == '"' then "\"\"" else [t[0]];
  }

  lemma Regroup(a: string, b: string, c: string, d: string)
    ensures (a + b) + c + d == a + (b + c + d)
  {
  }

  lemma QuotedBodyClose(rest: string)
    requires FieldBoundary(rest)
    ensures ParseQuotedBody([] + "\"" + rest) == Some(([], rest))
  {
    var s := [] + "\"" + rest;
    assert s[0] == '"' && s[1..] == rest;
  }

  lemma QuotedBodyPair(u: string)
    ensures ParseQuotedBody("\"\"" + u) == Prepend('"', ParseQuotedBody(u))
  {
    var s := "\"\"" + u;
    assert s[0] == '"' && s[1] == '"' && s[2..] == u;
  }

  lemma QuotedBodyChar(c: char, u: string)
    requires c != '"'
    ensures ParseQuotedBody([c] + u) == Prepend(c, ParseQuotedBody(u))
  {
    var s := [c] + u;
    assert s[0] == c && s[1..] == u;
  }

  /** A safe text reads back unchanged without quotes. */
  lemma {:induction false} ParseBareSafe(t: string, rest: string)
    requires Safe(t) && FieldBoundary(rest)
    ensures ParseBare(t + rest) == Some((t, rest))
  {
    if t != [] {
      assert Safe(t[1..]) by {
        forall i | 0 <= i < |t[1..]| ensures t[1..][i] != ',' && t[1..][i] != '"' && t[1..][i] != '\n' {
          assert t[1..][i] == t[i + 1];
        }
      }
      ParseBareSafe(t[1..], rest);
      assert (t + rest)[0] == t[0];
      assert t[0] != ',' && t[0] != '"' && t[0] != '\n';
      assert ParseBare(t + rest) == Prepend(t[0], ParseBare((t + rest)[1..]));
      assert (t + rest)[1..] == t[1..] + rest;
      assert t == [t[0]] + t[1..];
    } else {
      assert t + rest == rest;
    }
  }

  lemma ParseFieldCell(c: Cell, rest: string)
    requires CellOk(c) && FieldBoundary(rest)
    ensures ParseField(Render(c) + rest) == Some((c.text, rest))
  {
    match c
    case Bare(t) =>
      ParseFieldBare(t, rest);
    case Quoted(t) =>
      ParseQuotedEscaped(t, rest);
      Regroup("\"", Escape(t), "\"", rest);
      ParseFieldOpenQuote(Escape(t) + "\"" + rest);
    case QuotedUnescaped(t) =>
      ParseQuotedEscaped(t, rest);
      Regroup("\"", t, "\"", rest);
      ParseFieldOpenQuote(t + "\"" + rest);
  }

  /** A field that opens with a quote is read as a quoted body. */
  lemma ParseFieldOpenQuote(u: string)
    ensures ParseField("\"" + u) == ParseQuotedBody(u)
  {
    var s := "\"" + u;
    assert s[0] == '"' && s[1..] == u;
  }

  lemma ParseFieldBare(t: string, rest: string)
    requires Safe(t) && FieldBoundary(rest)
    ensures ParseField(t + rest) == Some((t, rest))
  {
    ParseBareSafe(t, rest);
    if t != [] {
      assert (t + rest)[0] == t[0];
    }
  }

  /** A line of one cell is that cell; a longer line is its first cell, a comma and the rest. */
  lemma RecordCons(cells: seq<Cell>)
    requires |cells| >= 1
    ensures |cells| == 1 ==> RenderRecord(cells) == Render(cells[0])
    ensures |cells| > 1 ==> RenderRecord(cells) == Render(cells[0]) + ("," + RenderRecord(cells[1..]))
  {
    if |cells| > 1 {
      assert RenderAll(cells)[1..] == RenderAll(cells[1..]);
    }
  }

  /** A first field followed by a comma: the record is that field and the record after the comma. */
  lemma ParseRecordStep(s: string, f: string, tail: string)
    requires ParseField(s) == Some((f, "," + tail))
    ensures ParseRecord(s) ==
      match ParseRecord(tail)
      case None => None
      case Some((fs, r)) => Some(([f] + fs, r))
  {
    assert ("," + tail)[1..] == tail;
  }

  /** A first field followed by the end of the record: the record is that field alone. */
  lemma ParseRecordLast(s: string, f: string, rest: string)
    requires ParseField(s) == Some((f, rest)) && RecordBoundary(rest)
    ensures ParseRecord(s) == Some(([f], rest))
  {
  }

  lemma RowOkTail(cells: seq<Cell>)
    requires |cells| >= 2 && RowOk(cells)
    ensures RowOk(cells[1..])
  {
    forall i | 0 <= i < |cells[1..]| ensures CellOk(cells[1..][i]) {
      assert cells[1..][i] == cells[i + 1];
    }
  }

  lemma TextsCons(cells: seq<Cell>)
    requires |cells| >= 1
    ensures Texts(cells) == [cells[0].text] + Texts(cells[1..])
  {
  }

  /** A line of good cells reads back as the cells' texts. */
  lemma {:induction false} ParseRecordCells(cells: seq<Cell>, rest: string)
    requires RowOk(cells) && RecordBoundary(rest)
    ensures ParseRecord(RenderRecord(cells) + rest) == Some((Texts(cells), rest))
  {
    RecordCons(cells);
    TextsCons(cells);
    assert CellOk(cells[0]);
    if |cells| == 1 {
      assert Texts(cells) == [cells[0].text];
      ParseFieldCell(cells[0], rest);
      ParseRecordLast(Render(cells[0]) + rest, cells[0].text, rest);
    } else {
      var tail := RenderRecord(cells[1..]) + rest;
      assert RenderRecord(cells) + rest == Render(cells[0]) + ("," + tail);
      ParseFieldCell(cells[0], "," + tail);
      RowOkTail(cells);
      ParseRecordCells(cells[1..], rest);
      ParseRecordStep(Render(cells[0]) + ("," + tail), cells[0].text, tail);
    }
  }

  function RecordLines(records: seq<seq<Cell>>): (r: seq<string>)
    ensures |r| == |records|
  {
    seq(|records|, k requires 0 <= k < |records| => RenderRecord(records[k]))
  }

  function AllTexts(records: seq<seq<Cell>>): (r: seq<seq<string>>)
    ensures |r| == |records|
  {
    seq(|records|, k requires 0 <= k < |records| => Texts(records[k]))
  }

  /** Lines of good cells joined with line feeds read back as their texts, line by line. */
  lemma {:induction false} ParseFileRecords(records: seq<seq<Cell>>)
    requires |records| >= 1
    requires forall k :: 0 <= k < |records| ==> RowOk(records[k])
    ensures ParseFile(Join(RecordLines(records), "\n")) == Some(AllTexts(records))
  {
    FileCons(records);
    assert RowOk(records[0]);
    assert AllTexts(records) == [Texts(records[0])] + AllTexts(records[1..]);
    if |records| == 1 {
      ParseRecordCells(records[0], []);
      assert RenderRecord(records[0]) + [] == RenderRecord(records[0]);
      ParseFileLast(RenderRecord(records[0]), Texts(records[0]));
      assert AllTexts(records) == [Texts(records[0])];
    } else {
      var tail := Join(RecordLines(records[1..]), "\n");
      ParseRecordCells(records[0], "\n" + tail);
      assert forall k :: 0 <= k < |records[1..]| ==> records[1..][k] == records[k + 1];
      ParseFileRecords(records[1..]);
      ParseFileStep(RenderRecord(records[0]) + ("\n" + tail), Texts(records[0]), tail);
    }
  }

  /** A file of one line is that line; a longer file is its first line, a line feed and the rest. */
  lemma FileCons(records: seq<seq<Cell>>)
    requires |records| >= 1
    ensures |records| == 1 ==> Join(RecordLines(records), "\n") == RenderRecord(records[0])
    ensures |records| > 1 ==>
      Join(RecordLines(records), "\n") == RenderRecord(records[0]) + ("\n" + Join(RecordLines(records[1..]), "\n"))
  {
    if |records| > 1 {
      assert RecordLines(records)[1..] == RecordLines(records[1..]);
    }
  }

  /** A record that ends the text is the whole file. */
  lemma ParseFileLast(s: string, fs: seq<string>)
    requires ParseRecord(s) == Some((fs, []))
    ensures ParseFile(s) == Some([fs])
  {
  }

  /** A first record followed by a line feed: the file is that record and the records after it. */
  lemma ParseFileStep(s: string, fs: seq<string>, tail: string)
    requires ParseRecord(s) == Some((fs, "\n" + tail))
    ensures ParseFile(s) ==
      match ParseFile(tail)
      case None => None
      case Some(rs) => Some([fs] + rs)
  {
    assert ("\n" + tail)[1..] == tail;
  }

  /** The export's column names. */
  const Headers: seq<string> := [
    "ID", "Nombre", "Slug", "Descripción Breve", "Descripción Larga", "Logo URL", "Año Fundación",
    "Estado", "Ubicación", "Etiquetas", "Num Empleados", "Web", "Email", "Teléfono",
    "Inversión Recibida", "Pitch Deck URL", "Aprobada", "Creado Por", "Fecha Creación",
    "Fecha Actualización"]

  function HeaderCells(): (r: seq<Cell>)
    ensures |r| == |Headers| && Texts(r) == Headers
  {
    seq(|Headers|, i requires 0 <= i < |Headers| => Bare(Headers[i]))
  }

  /** The header line is twenty bare, safe names. */
  lemma HeaderIsGood()
    ensures |Headers| == 20
    ensures RowOk(HeaderCells())
  {
    HeadersSafe1();
    HeadersSafe2();
    HeadersSafe3();
    HeadersSafe4();
    HeadersSafe5();
    forall i | 0 <= i < |Headers| ensures CellOk(HeaderCells()[i]) {
      assert Safe(Headers[i]);
    }
  }

  lemma HeadersSafe1()
    ensures Safe(Headers[0]) && Safe(Headers[1]) && Safe(Headers[2]) && Safe(Headers[3])
  {
  }

  lemma HeadersSafe2()
    ensures Safe(Headers[4]) && Safe(Headers[5]) && Safe(Headers[6]) && Safe(Headers[7])
  {
  }

  lemma HeadersSafe3()
    ensures Safe(Headers[8]) && Safe(Headers[9]) && Safe(Headers[10]) && Safe(Headers[11])
  {
  }

  lemma HeadersSafe4()
    ensures Safe(Headers[12]) && Safe(Headers[13]) && Safe(Headers[14]) && Safe(Headers[15])
  {
  }

  lemma HeadersSafe5()
    ensures Safe(Headers[16]) && Safe(Headers[17]) && Safe(Headers[18]) && Safe(Headers[19])
  {
  }

  function OrEmpty(v: Option<string>): string {
    if v.Some? then v.value else ""
  }

  /** `startup.año_fundacion || ''`: a year of zero is written as nothing. */
  function YearText(v: Option<int>): (r: string)
    ensures v.Some? && v.value != 0 ==> r == IntToDecimal(v.value)
    ensures v.None? || v == Some(0) ==> r == ""
  {
    if v.Some? && v.value != 0 then IntToDecimal(v.value) else ""
  }

  /** The twenty cells of a startup's line, as the export writes them. */
  function AsWrittenCells(s: Startup): (r: seq<Cell>)
    ensures |r| == 20
  {
    [ Bare(s.id),
      Quoted(s.nombre),
      Bare(s.slug),
      Quoted(s.descripcionBreve),
      Quoted(s.descripcionLarga),
      Bare(OrEmpty(s.logoUrl)),
      Bare(YearText(s.anoFundacion)),
      Bare(EstadoName(s.estado)),
      Quoted(OrEmpty(s.ubicacion)),
      QuotedUnescaped(Join(s.tags, "; ")),
      Bare(OrEmpty(s.numEmpleados)),
      Bare(OrEmpty(s.web)),
      Bare(OrEmpty(s.email)),
      Bare(OrEmpty(s.phone)),
      Bare(OrEmpty(s.inversionRecibida)),
      Bare(OrEmpty(s.pitchDeckUrl)),
      Bare(if s.isApproved then "Sí" else "No"),
      Bare(OrEmpty(s.createdBy)),
      Bare(s.createdAt.text),
      Bare(s.updatedAt.text) ]
  }

  /** What each column of a startup's line is meant to hold. */
  function FieldTexts(s: Startup): (r: seq<string>)
    ensures |r| == |Headers|
  {
    Texts(AsWrittenCells(s))
  }

  /** The corrected line: every one of those texts quoted, inner quotes doubled. */
  function QuotedCells(s: Startup): (r: seq<Cell>)
    ensures |r| == 20 && RowOk(r) && Texts(r) == FieldTexts(s)
  {
    var texts := FieldTexts(s);
    seq(|texts|, i requires 0 <= i < |texts| => Quoted(texts[i]))
  }

  function Records(startups: seq<Startup>, cellsOf: Startup -> seq<Cell>): (r: seq<seq<Cell>>)
    ensures |r| == |startups|
  {
    seq(|startups|, k requires 0 <= k < |startups| => cellsOf(startups[k]))
  }

  function RowTexts(startups: seq<Startup>, cellsOf: Startup -> seq<Cell>): (r: seq<seq<string>>)
    ensures |r| == |startups|
  {
    seq(|startups|, k requires 0 <= k < |startups| => Texts(cellsOf(startups[k])))
  }

  /** The file's text: the header line and one line per startup, joined with line feeds. */
  function CsvText(startups: seq<Startup>, cellsOf: Startup -> seq<Cell>): string {
    Join(RecordLines([HeaderCells()] + Records(startups, cellsOf)), "\n")
  }

  /** Whenever every line is good, the file reads back as the header and each startup's texts. */
  lemma CsvReadsBack(startups: seq<Startup>, cellsOf: Startup -> seq<Cell>)
    requires forall s :: s in startups ==> RowOk(cellsOf(s))
    ensures ParseFile(CsvText(startups, cellsOf)) == Some([Headers] + RowTexts(startups, cellsOf))
  {
    var records := [HeaderCells()] + Records(startups, cellsOf);
    RecordsOk(startups, cellsOf);
    ParseFileRecords(records);
    TextsOfRecords(startups, cellsOf);
  }

  /** The header and every good startup line are good lines. */
  lemma RecordsOk(startups: seq<Startup>, cellsOf: Startup -> seq<Cell>)
    requires forall s :: s in startups ==> RowOk(cellsOf(s))
    ensures forall k :: 0 <= k < 1 + |startups| ==> RowOk(([HeaderCells()] + Records(startups, cellsOf))[k])
  {
    var records := [HeaderCells()] + Records(startups, cellsOf);
    HeaderIsGood();
    forall k | 0 <= k < |records| ensures RowOk(records[k]) {
      if k > 0 {
        assert startups[k - 1] in startups;
        assert records[k] == cellsOf(startups[k - 1]);
      }
    }
  }

  lemma TextsOfRecords(startups: seq<Startup>, cellsOf: Startup -> seq<Cell>)
    ensures AllTexts([HeaderCells()] + Records(startups, cellsOf)) == [Headers] + RowTexts(startups, cellsOf)
  {
    var records := [HeaderCells()] + Records(startups, cellsOf);
    forall k | 0 <= k < |records| ensures AllTexts(records)[k] == ([Headers] + RowTexts(startups, cellsOf))[k] {
      if k > 0 {
        assert records[k] == cellsOf(startups[k - 1]);
      }
    }
  }

  lemma RecordsSnoc(startups: seq<Startup>, i: nat, cellsOf: Startup -> seq<Cell>)
    requires i < |startups|
    ensures [HeaderCells()] + Records(startups[..i + 1], cellsOf)
         == ([HeaderCells()] + Records(startups[..i], cellsOf)) + [cellsOf(startups[i])]
  {
    assert Records(startups[..i + 1], cellsOf) == Records(startups[..i], cellsOf) + [cellsOf(startups[i])];
  }

  lemma RecordLinesSnoc(records: seq<seq<Cell>>, r: seq<Cell>)
    ensures RecordLines(records + [r]) == RecordLines(records) + [RenderRecord(r)]
  {
  }

  /**
   * The export's loop: the header line, then one line per startup pushed in order, then the
   * lines joined with line feeds.
   */
  method BuildCsv(startups: seq<Startup>, cellsOf: Startup -> seq<Cell>) returns (content: string)
    ensures content == CsvText(startups, cellsOf)
    ensures (forall s :: s in startups ==> RowOk(cellsOf(s))) ==>
      ParseFile(content) == Some([Headers] + RowTexts(startups, cellsOf))
  {
    var csvRows := [RenderRecord(HeaderCells())];
    assert startups[..0] == [];
    assert [HeaderCells()] + Records(startups[..0], cellsOf) == [HeaderCells()];
    for i := 0 to |startups|
      invariant csvRows == RecordLines([HeaderCells()] + Records(startups[..i], cellsOf))
    {
      RecordsSnoc(startups, i, cellsOf);
      RecordLinesSnoc([HeaderCells()] + Records(startups[..i], cellsOf), cellsOf(startups[i]));
      csvRows := csvRows + [RenderRecord(cellsOf(startups[i]))];
    }
    assert startups[..|startups|] == startups;
    content := Join(csvRows, "\n");
    if forall s :: s in startups ==> RowOk(cellsOf(s)) {
      CsvReadsBack(startups, cellsOf);
    }
  }

  /** The export as written reads back column for column exactly when every line's cells are good. */
  lemma AsWrittenReadsBack(startups: seq<Startup>)
    requires forall s :: s in startups ==> RowOk(AsWrittenCells(s))
    ensures ParseFile(CsvText(startups, AsWrittenCells)) == Some([Headers] + RowTexts(startups, AsWrittenCells))
    ensures forall k :: 0 <= k < |startups| ==> RowTexts(startups, AsWrittenCells)[k] == FieldTexts(startups[k])
  {
    CsvReadsBack(startups, AsWrittenCells);
  }

  /** The corrected export always reads back as the header and every startup's twenty texts. */
  lemma QuotedExportReadsBack(startups: seq<Startup>)
    ensures ParseFile(CsvText(startups, QuotedCells)) == Some([Headers] + RowTexts(startups, QuotedCells))
    ensures forall k :: 0 <= k < |startups| ==> RowTexts(startups, QuotedCells)[k] == FieldTexts(startups[k])
  {
    CsvReadsBack(startups, QuotedCells);
  }

  /** A bare cell `a,b` in an otherwise good line is read as the two fields `a` and `b`. */
  lemma BareCommaSplits(cells: seq<Cell>, k: nat, a: string, b: string)
    requires k < |cells| && cells[k] == Bare(a + "," + b) && Safe(a) && Safe(b)
    requires forall i :: 0 <= i < |cells| && i != k ==> CellOk(cells[i])
    ensures ParseRecord(RenderRecord(cells)) == Some((Texts(cells)[..k] + [a, b] + Texts(cells)[k + 1..], []))
  {
    var split := cells[..k] + [Bare(a), Bare(b)] + cells[k + 1..];
    SplitCellSameLine(cells, k, a, b);
    assert RowOk(split) by {
      forall i | 0 <= i < |split| ensures CellOk(split[i]) {
        if i < k { assert split[i] == cells[i]; }
        else if i > k + 1 { assert split[i] == cells[i - 1]; }
      }
    }
    ParseRecordCells(split, []);
    assert RenderRecord(split) + [] == RenderRecord(split);
    assert Texts(split) == Texts(cells)[..k] + [a, b] + Texts(cells)[k + 1..];
  }

  /** Writing the bare cell `a,b` or the two bare cells `a` and `b` gives the same line. */
  lemma {:induction false} SplitCellSameLine(cells: seq<Cell>, k: nat, a: string, b: string)
    requires k < |cells| && cells[k] == Bare(a + "," + b)
    ensures RenderRecord(cells[..k] + [Bare(a), Bare(b)] + cells[k + 1..]) == RenderRecord(cells)
  {
    var split := cells[..k] + [Bare(a), Bare(b)] + cells[k + 1..];
    RecordCons(split);
    RecordCons(cells);
    if k == 0 {
      var post := cells[1..];
      assert split[1..] == [Bare(b)] + post;
      RecordCons(split[1..]);
      if post != [] {
        assert split[1..][1..] == post;
        Regroup(a, ",", b, "," + RenderRecord(post));
      }
    } else {
      assert split[0] == cells[0];
      assert split[1..] == cells[1..][..k - 1] + [Bare(a), Bare(b)] + cells[1..][k..];
      SplitCellSameLine(cells[1..], k - 1, a, b);
    }
  }

  /**
   * A bare cell holding a comma is read as two fields: the line of a startup whose invested
   * amount is `a,b` reads back as twenty-one fields, `a` and `b` in place of the amount, every
   * later column moved one to the right.
   */
  lemma InversionCommaShiftsColumns(s: Startup, a: string, b: string)
    requires s.inversionRecibida == Some(a + "," + b) && Safe(a) && Safe(b)
    requires forall i :: 0 <= i < 20 && i != 14 ==> CellOk(AsWrittenCells(s)[i])
    ensures ParseRecord(RenderRecord(AsWrittenCells(s))) ==
      Some((FieldTexts(s)[..14] + [a, b] + FieldTexts(s)[15..], []))
  {
    var cells := AsWrittenCells(s);
    assert cells[14] == Bare(a + "," + b);
    BareCommaSplits(cells, 14, a, b);
  }

  /** The amount `1,5M`, written bare, becomes the two fields `1` and `5M`. */
  lemma InversionExample(s: Startup)
    requires s.inversionRecibida == Some("1,5M")
    requires forall i :: 0 <= i < 20 && i != 14 ==> CellOk(AsWrittenCells(s)[i])
    ensures var p := ParseRecord(RenderRecord(AsWrittenCells(s))); p.Some? && |p.value.0| == 21
  {
    assert "1,5M" == "1" + "," + "5M";
    assert Safe("1") && Safe("5M");
    InversionCommaShiftsColumns(s, "1", "5M");
  }

  /** Inside quotes, a lone quote followed by an ordinary character is not well formed. */
  lemma {:induction false} StrayQuoteRejected(a: string, c: char, tail: string)
    requires '"' !in a
    requires c != '"' && c != ',' && c != '\n'
    ensures ParseQuotedBody(a + ['"', c] + tail) == None
  {
    if a != [] {
      assert (a + ['"', c] + tail)[1..] == a[1..] + ['"', c] + tail;
      StrayQuoteRejected(a[1..], c, tail);
    } else {
      assert (a + ['"', c] + tail)[1..] == [c] + tail;
    }
  }

  /** A line whose good leading cells are followed by a cell that cannot be read fails to read. */
  lemma {:induction false} ParseRecordFailsAt(pre: seq<Cell>, c: Cell, post: seq<Cell>)
    requires forall i :: 0 <= i < |pre| ==> CellOk(pre[i])
    requires forall rest :: ParseField(Render(c) + rest) == None
    ensures ParseRecord(RenderRecord(pre + [c] + post)) == None
  {
    var cells := pre + [c] + post;
    RecordCons(cells);
    if pre == [] {
      assert cells[0] == c;
      if |cells| == 1 {
        assert RenderRecord(cells) == Render(c) + [];
      } else {
        assert RenderRecord(cells) == Render(c) + ("," + RenderRecord(cells[1..]));
      }
      ParseRecordFieldFails(RenderRecord(cells));
    } else {
      assert cells[0] == pre[0];
      assert cells[1..] == pre[1..] + [c] + post;
      var tail := RenderRecord(cells[1..]);
      assert CellOk(pre[0]);
      ParseFieldCell(pre[0], "," + tail);
      ParseRecordStep(RenderRecord(cells), pre[0].text, tail);
      ParseRecordFailsAt(pre[1..], c, post);
    }
  }

  lemma ParseRecordFieldFails(s: string)
    requires ParseField(s) == None
    ensures ParseRecord(s) == None
  {
  }

  /**
   * A tag holding a quote written into the unescaped tag cell makes the line unreadable: the
   * quote closes the cell early and the next character is neither a comma nor a line end.
   */
  lemma TagQuoteBreaksLine(s: Startup, a: string, c: char, tail: string)
    requires Join(s.tags, "; ") == a + ['"', c] + tail
    requires '"' !in a && c != '"' && c != ',' && c != '\n'
    requires forall i :: 0 <= i < 9 ==> CellOk(AsWrittenCells(s)[i])
    ensures ParseRecord(RenderRecord(AsWrittenCells(s))) == None
  {
    var cells := AsWrittenCells(s);
    var cell := cells[9];
    forall rest ensures ParseField(Render(cell) + rest) == None {
      assert Render(cell) + rest == "\"" + (a + ['"', c] + (tail + "\"" + rest));
      assert (Render(cell) + rest)[1..] == a + ['"', c] + (tail + "\"" + rest);
      StrayQuoteRejected(a, c, tail + "\"" + rest);
    }
    assert cells == cells[..9] + [cell] + cells[10..];
    ParseRecordFailsAt(cells[..9], cell, cells[10..]);
  }

  /** What the export route answers. */
  datatype ExportReply =
    | CsvFile(status: nat, contentType: string, fileName: string, body: string)
    | JsonError(status: nat, error: string)

  /**
   * `GET /api/admin/startups/export`, with each startup's cells given by `cellsOf`.
   * `authFailed`/`user` are what the session check returns, `fetchFailed`/`rows` the startups
   * query (rows newest first; no data reads as no rows), and `isoNow` the current instant in
   * ISO 8601 form, whose date names the file. `thrown` is an unexpected exception on the way,
   * which the catch answers with a 500.
   */
  method ExportWith(authFailed: bool, user: Option<AuthUser>, fetchFailed: bool, rows: seq<Startup>, isoNow: string,
                    thrown: bool, cellsOf: Startup -> seq<Cell>)
    returns (r: ExportReply)
    ensures thrown ==> r == JsonError(500, "Error interno del servidor")
    ensures !thrown && (authFailed || user.None?) ==> r == JsonError(401, "No autorizado")
    ensures !thrown && !authFailed && user.Some? && user.value.metadata.role != Some("admin") ==>
      r == JsonError(403, "Permisos insuficientes")
    ensures !thrown && !authFailed && user.Some? && user.value.metadata.role == Some("admin") && fetchFailed ==>
      r == JsonError(500, "Error al obtener las startups")
    ensures r.CsvFile? <==> !thrown && !authFailed && user.Some? && user.value.metadata.role == Some("admin") && !fetchFailed
    ensures r.CsvFile? ==>
      && r.status == 200
      && r.contentType == "text/csv; charset=utf-8"
      && r.fileName == "startups_" + Split(isoNow, 'T')[0] + ".csv"
      && r.body == CsvText(rows, cellsOf)
    ensures r.CsvFile? && (forall s :: s in rows ==> RowOk(cellsOf(s))) ==>
      ParseFile(r.body) == Some([Headers] + RowTexts(rows, cellsOf))
  {
    if thrown {
      return JsonError(500, "Error interno del servidor");
    }
    if authFailed || user.None? {
      return JsonError(401, "No autorizado");
    }
    if user.value.metadata.role != Some("admin") {
      return JsonError(403, "Permisos insuficientes");
    }
    if fetchFailed {
      return JsonError(500, "Error al obtener las startups");
    }
    var content := BuildCsv(rows, cellsOf);
    r := CsvFile(200, "text/csv; charset=utf-8", "startups_" + Split(isoNow, 'T')[0] + ".csv", content);
  }

  /**
   * The route as written: `nombre`, both descriptions and `ubicacion` are quoted with their
   * quotes doubled, `tags` is quoted without doubling, and every other cell is written bare.
   * So the file reads back as the fields only when no bare cell holds a comma, a quote or a
   * line break and no tag holds a quote (see `InversionCommaShiftsColumns` and
   * `TagQuoteBreaksLine` for files where it does not).
   */
  method ExportStartups(authFailed: bool, user: Option<AuthUser>, fetchFailed: bool, rows: seq<Startup>, isoNow: string, thrown: bool)
    returns (r: ExportReply)
    ensures thrown ==> r == JsonError(500, "Error interno del servidor")
    ensures !thrown && (authFailed || user.None?) ==> r == JsonError(401, "No autorizado")
    ensures !thrown && !authFailed && user.Some? && user.value.metadata.role != Some("admin") ==>
      r == JsonError(403, "Permisos insuficientes")
    ensures !thrown && !authFailed && user.Some? && user.value.metadata.role == Some("admin") && fetchFailed ==>
      r == JsonError(500, "Error al obtener las startups")
    ensures r.CsvFile? <==> !thrown && !authFailed && user.Some? && user.value.metadata.role == Some("admin") && !fetchFailed
    ensures r.CsvFile? ==>
      && r.status == 200
      && r.contentType == "text/csv; charset=utf-8"
      && r.fileName == "startups_" + Split(isoNow, 'T')[0] + ".csv"
      && r.body == CsvText(rows, AsWrittenCells)
    ensures r.CsvFile? && (forall s :: s in rows ==> RowOk(AsWrittenCells(s))) ==>
      && ParseFile(r.body) == Some([Headers] + RowTexts(rows, AsWrittenCells))
      && forall k :: 0 <= k < |rows| ==> RowTexts(rows, AsWrittenCells)[k] == FieldTexts(rows[k])
  {
    r := ExportWith(authFailed, user, fetchFailed, rows, isoNow, thrown, AsWrittenCells);
    if r.CsvFile? && (forall s :: s in rows ==> RowOk(AsWrittenCells(s))) {
      AsWrittenReadsBack(rows);
    }
  }

  /**
   * The export with every field quoted and its quotes doubled, as the route already does for
   * `nombre`, the descriptions and `ubicacion`: whatever
   * the fields hold, the file reads back as the header and, row by row, the fields.
   */
  method ExportStartupsQuoted(authFailed: bool, user: Option<AuthUser>, fetchFailed: bool, rows: seq<Startup>, isoNow: string, thrown: bool)
    returns (r: ExportReply)
    ensures thrown ==> r == JsonError(500, "Error interno del servidor")
    ensures !thrown && (authFailed || user.None?) ==> r == JsonError(401, "No autorizado")
    ensures !thrown && !authFailed && user.Some? && user.value.metadata.role != Some("admin") ==>
      r == JsonError(403, "Permisos insuficientes")
    ensures !thrown && !authFailed && user.Some? && user.value.metadata.role == Some("admin") && fetchFailed ==>
      r == JsonError(500, "Error al obtener las startups")
    ensures r.CsvFile? <==> !thrown && !authFailed && user.Some? && user.value.metadata.role == Some("admin") && !fetchFailed
    ensures r.CsvFile? ==>
      && r.status == 200
      && r.contentType == "text/csv; charset=utf-8"
      && r.fileName == "startups_" + Split(isoNow, 'T')[0] + ".csv"
      && r.body == CsvText(rows, QuotedCells)
      && ParseFile(r.body) == Some([Headers] + RowTexts(rows, QuotedCells))
      && forall k :: 0 <= k < |rows| ==> RowTexts(rows, QuotedCells)[k] == FieldTexts(rows[k])
  {
    r := ExportWith(authFailed, user, fetchFailed, rows, isoNow, thrown, QuotedCells);
    if r.CsvFile? {
      QuotedExportReadsBack(rows);
    }
  }
}
