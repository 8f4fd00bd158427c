/** `Parser.parse_calorizator_page`: find the nutrition table on a listing
    page and turn its body rows into product records.

    The HTML is abstracted to what the code reads from it. A missing element
    that the code dereferences (`None.attr`) is an `Option` that is `None`,
    and reading it is an `AttributeError`. */
module PageParser {

  import opened Exceptions
  import opened Text

  /** An `<a>` element; `text` is its `.string` (None when the link does not
      hold exactly one string). */
  datatype Link = Link(text: Option<string>)

  /** A `<th>` cell of a header row, with its `.a` child. */
  datatype HeaderCell = HeaderCell(link: Option<Link>)

  /** A `<td>` cell of a body row, with its `.a` child and its `.string`. */
  datatype DataCell = DataCell(link: Option<Link>, text: Option<string>)

  type Row = seq<DataCell>

  /** A `<table>`: the cells of the first `<tr>` of its `<thead>` (None when
      there is no `<thead>` or it has no `<tr>`) and the rows of its `<tbody>`
      (None when there is no `<tbody>`). */
  datatype Table = Table(headerRow: Option<seq<HeaderCell>>, bodyRows: Option<seq<Row>>)

  /** A fetched listing page: the tables of its `<div id="main-content">` in
      document order, None when that element is missing. */
  datatype Document = Document(mainContent: Option<seq<Table>>)

  /** The record built from one body row. */
  datatype Record = Record(protein: real, fat: real, carbohydrates: real, calories: real)

  /** What one page yields: product name to record. */
  type PageData = map<string, Record>

  /** Python's `float()` on a string: None when it raises `ValueError`. */
  type FloatConversion = string -> Option<real>

  /** The header labels after the first two columns: protein, fat,
      carbohydrates, calories. */
  const ExpectedLabels: seq<Option<string>> :=
    [Some("Бел, г"), Some("Жир, г"), Some("Угл, г"), Some("Кал, ккал")]

  /** Python's `s[2:]`: empty when `s` has fewer than two elements. */
  function DropTwo<T>(s: seq<T>): (r: seq<T>)
    ensures |r| == if |s| >= 2 then |s| - 2 else 0
    ensures forall i :: 0 <= i < |r| ==> r[i] == s[i + 2]
  {
    if |s| >= 2 then s[2..] else []
  }

  /** `[x.a.string for x in cells]`: None (an `AttributeError`) as soon as one
      cell has no link. */
  function LinkTexts(cells: seq<HeaderCell>): (r: Option<seq<Option<string>>>)
    ensures r.Some? <==> forall i :: 0 <= i < |cells| ==> cells[i].link.Some?
    ensures r.Some? ==> |r.value| == |cells| &&
                        forall i :: 0 <= i < |cells| ==> r.value[i] == cells[i].link.value.text
  {
    if cells == [] then Some([])
    else if cells[0].link.None? then None
    else match LinkTexts(cells[1..])
      case None => None
      case Some(rest) => Some([cells[0].link.value.text] + rest)
  }

  /** The labels the `try` block compares, None when it raises
      `AttributeError`. */
  function HeaderLabels(t: Table): Option<seq<Option<string>>>
  {
    match t.headerRow
    case None => None
    case Some(cells) => LinkTexts(DropTwo(cells))
  }

  /** `entries_names == expected`: `t` is the nutrition table. */
  predicate IsTargetTable(t: Table) {
    HeaderLabels(t) == Some(ExpectedLabels)
  }

  /** The shape of the nutrition table: a header row of exactly six cells
      whose last four link to the expected labels; the first two cells are
      never looked at. A table without a header row is never the target. */
  lemma TargetTableShape(t: Table)
    ensures IsTargetTable(t) <==>
              && t.headerRow.Some?
              && |t.headerRow.value| == 6
              && forall i :: 2 <= i < 6 ==> t.headerRow.value[i].link == Some(Link(ExpectedLabels[i - 2]))
  {
    if t.headerRow.Some? {
      var cells := t.headerRow.value;
      var labels := LinkTexts(DropTwo(cells));
      if IsTargetTable(t) {
        forall i | 2 <= i < 6
          ensures cells[i].link == Some(Link(ExpectedLabels[i - 2]))
        {
          assert DropTwo(cells)[i - 2] == cells[i];
          assert labels.value[i - 2] == ExpectedLabels[i - 2];
        }
      }
      if |cells| == 6 && forall i :: 2 <= i < 6 ==> cells[i].link == Some(Link(ExpectedLabels[i - 2])) {
        assert forall i :: 0 <= i < 4 ==> DropTwo(cells)[i] == cells[i + 2];
        assert labels.Some?;
        assert labels.value == ExpectedLabels;
      }
    }
  }

  /** The index of the first table of `tables` that is the target. */
  function FirstTarget(tables: seq<Table>): (r: Option<nat>)
    ensures r.Some? ==> r.value < |tables| && IsTargetTable(tables[r.value]) &&
                        forall j :: 0 <= j < r.value ==> !IsTargetTable(tables[j])
    ensures r.None? ==> forall j :: 0 <= j < |tables| ==> !IsTargetTable(tables[j])
  {
    if tables == [] then None
    else if IsTargetTable(tables[0]) then Some(0)
    else match FirstTarget(tables[1..])
      case None => None
      case Some(k) => Some(k + 1)
  }

  /** The table `FirstTarget` picks. */
  function SelectedTable(tables: seq<Table>): Option<Table>
  {
    match FirstTarget(tables)
    case None => None
    case Some(k) => Some(tables[k])
  }

  /** The table picked from a list is its head when that is the target, and
      otherwise the one picked from the rest. */
  lemma SelectedTableCons(x: Table, rest: seq<Table>)
    ensures SelectedTable([x] + rest) == if IsTargetTable(x) then Some(x) else SelectedTable(rest)
  {
    var all := [x] + rest;
    assert all[0] == x && all[1..] == rest;
    if !IsTargetTable(x) && FirstTarget(rest).Some? {
      assert all[FirstTarget(rest).value + 1] == rest[FirstTarget(rest).value];
    }
  }

  /** Putting the same table in front of two lists that pick the same table
      keeps them picking the same table. */
  lemma SelectedTableSameHead(x: Table, s: seq<Table>, s': seq<Table>)
    requires SelectedTable(s) == SelectedTable(s')
    ensures SelectedTable([x] + s) == SelectedTable([x] + s')
  {
    SelectedTableCons(x, s);
    SelectedTableCons(x, s');
  }

  /** A table that is not the target, wherever it stands, changes nothing
      about which table is picked. */
  lemma {:induction false} NonTargetTableIgnored(before: seq<Table>, t: Table, after: seq<Table>)
    requires !IsTargetTable(t)
    ensures SelectedTable(before + [t] + after) == SelectedTable(before + after)
    decreases |before|
  {
    if before == [] {
      assert before + [t] + after == [t] + after;
      assert before + after == after;
      SelectedTableCons(t, after);
    } else {
      var x, rest := before[0], before[1..];
      assert before + [t] + after == [x] + (rest + [t] + after);
      assert before + after == [x] + (rest + after);
      NonTargetTableIgnored(rest, t, after);
      SelectedTableSameHead(x, rest + [t] + after, rest + after);
    }
  }

  /** The `for table in ...: try ... break` loop: the index of the first
      table whose header matches, `MainTableNotFound` when none does. */
  method SelectTable(tables: seq<Table>) returns (r: Result<nat>)
    ensures r.Ok? ==> r.value < |tables| && IsTargetTable(tables[r.value]) &&
                      forall j :: 0 <= j < r.value ==> !IsTargetTable(tables[j])
    ensures r.Err? ==> r.error == MainTableNotFound &&
                       forall j :: 0 <= j < |tables| ==> !IsTargetTable(tables[j])
    ensures r.Ok? <==> FirstTarget(tables).Some?
    ensures r.Ok? ==> r.value == FirstTarget(tables).value
  {
    var mainTable: Option<nat> := None;
    var i := 0;
    while i < |tables|
      invariant 0 <= i <= |tables|
      invariant mainTable.None?
      invariant forall j :: 0 <= j < i ==> !IsTargetTable(tables[j])
    {
      match HeaderLabels(tables[i]) {
        case None =>
          // AttributeError: not the table we are looking for
        case Some(entriesNames) =>
          if entriesNames == ExpectedLabels {
            mainTable := Some(i);
            break;
          }
      }
      i := i + 1;
    }
    if mainTable.None? {
      return Err(MainTableNotFound);
    }
    return Ok(mainTable.value);
  }

  /** `parse_float` applied to a cell's `.string`: `AttributeError` when there
      is no string (`None.strip()`), otherwise the stripped text converted by
      `float()`, or 0.0 when that raises `ValueError`. */
  function ParseFloat(conv: FloatConversion, data: Option<string>): (r: Result<real>)
    ensures r.Err? <==> data.None?
    ensures r.Err? ==> r.error == AttributeError
    ensures data.Some? && conv(Strip(data.value)).Some? ==> r == Ok(conv(Strip(data.value)).value)
    ensures data.Some? && conv(Strip(data.value)).None? ==> r == Ok(0.0)
  {
    match data
    case None => Err(AttributeError)
    case Some(s) =>
      match conv(Strip(s))
      case Some(v) => Ok(v)
      case None => Ok(0.0)
  }

  /** Whitespace around a number does not change what it parses to, and text
      that `float()` rejects reads as 0.0. */
  lemma {:induction false} ParseFloatStripsAndDefaults(conv: FloatConversion, s: string)
    ensures ParseFloat(conv, Some(s)) == ParseFloat(conv, Some(Strip(s)))
    ensures conv(Strip(s)).None? ==> ParseFloat(conv, Some(s)) == Ok(0.0)
    ensures forall v :: conv(Strip(s)) == Some(v) ==> ParseFloat(conv, Some(s)) == Ok(v)
  {
    StripIdempotent(s);
  }

  /** Column `k` of a row as a number; `IndexError` past the last cell. */
  function Column(conv: FloatConversion, row: Row, k: nat): Result<real>
  {
    if k < |row| then ParseFloat(conv, row[k].text) else Err(IndexError)
  }

  /** `columns[1].a.string.strip()`. */
  function RowName(row: Row): Result<string>
  {
    if |row| < 2 then Err(IndexError)
    else match row[1].link
      case None => Err(AttributeError)
      case Some(a) =>
        match a.text
        case None => Err(AttributeError)
        case Some(s) => Ok(Strip(s))
  }

  /** One body row: its name and record, or the first exception raised while
      reading column 1 and then columns 2 to 5. */
  function ParseRow(conv: FloatConversion, row: Row): (r: Result<(string, Record)>)
    ensures r.Err? ==> r.error == IndexError || r.error == AttributeError
  {
    var name :- RowName(row);
    var protein :- Column(conv, row, 2);
    var fat :- Column(conv, row, 3);
    var carbohydrates :- Column(conv, row, 4);
    var calories :- Column(conv, row, 5);
    Ok((name, Record(protein, fat, carbohydrates, calories)))
  }

  /** A row the loop can read: six cells or more, a link with a string in
      column 1 and a string in each of columns 2 to 5. */
  predicate RowReadable(row: Row) {
    && |row| >= 6
    && row[1].link.Some? && row[1].link.value.text.Some?
    && forall k :: 2 <= k < 6 ==> row[k].text.Some?
  }

  /** A row is read without an exception exactly when it is readable. */
  lemma ParseRowOk(conv: FloatConversion, row: Row)
    ensures ParseRow(conv, row).Ok? <==> RowReadable(row)
  {
    if |row| >= 6 && RowName(row).Ok? && !RowReadable(row) {
      assert !row[2].text.Some? || !row[3].text.Some? || !row[4].text.Some? || !row[5].text.Some?;
    }
  }

  /** A readable row yields its stripped column-1 link text with the numbers
      of columns 2 to 5 as protein, fat, carbohydrates and calories. */
  lemma ParseRowFields(conv: FloatConversion, row: Row)
    requires RowReadable(row)
    ensures ParseRow(conv, row) == Ok((Strip(row[1].link.value.text.value),
                                       Record(ParseFloat(conv, row[2].text).value, ParseFloat(conv, row[3].text).value,
                                              ParseFloat(conv, row[4].text).value, ParseFloat(conv, row[5].text).value)))
  {
    assert RowName(row) == Ok(Strip(row[1].link.value.text.value));
    assert forall k :: 2 <= k < 6 ==> Column(conv, row, k) == Ok(ParseFloat(conv, row[k].text).value);
  }

  /** How one body row is read. */
  type RowParser = Row -> Result<(string, Record)>

  /** The row reader of `parse_calorizator_page`. */
  function RowParserFor(conv: FloatConversion): RowParser {
    row => ParseRow(conv, row)
  }

  /** The dictionary the row loop builds: each row stored under its name in
      turn, so a later row overwrites an earlier one of the same name. */
  function RowsToData(parse: RowParser, rows: seq<Row>): Result<PageData>
    decreases |rows|
  {
    if rows == [] then Ok(map[])
    else
      var data :- RowsToData(parse, rows[..|rows| - 1]);
      var entry :- parse(rows[|rows| - 1]);
      Ok(data[entry.0 := entry.1])
  }

  /** Once a prefix of the rows raised, the whole page raises the same. */
  lemma {:induction false} RowsToDataPrefixErr(parse: RowParser, rows: seq<Row>, i: nat)
    requires i <= |rows| && RowsToData(parse, rows[..i]).Err?
    ensures RowsToData(parse, rows) == RowsToData(parse, rows[..i])
    decreases |rows|
  {
    if i < |rows| {
      var init := rows[..|rows| - 1];
      assert init[..i] == rows[..i];
      RowsToDataPrefixErr(parse, init, i);
    } else {
      assert rows[..i] == rows;
    }
  }

  /** The rows are read without an exception exactly when every row parses. */
  lemma {:induction false} RowsToDataOk(parse: RowParser, rows: seq<Row>)
    ensures RowsToData(parse, rows).Ok? <==> forall i :: 0 <= i < |rows| ==> parse(rows[i]).Ok?
    decreases |rows|
  {
    if rows != [] {
      var init := rows[..|rows| - 1];
      RowsToDataOk(parse, init);
      assert forall i :: 0 <= i < |init| ==> init[i] == rows[i];
    }
  }

  /** The dictionary's keys are the names of the rows. */
  lemma {:induction false} RowsToDataKeys(parse: RowParser, rows: seq<Row>, name: string)
    requires RowsToData(parse, rows).Ok?
    ensures name in RowsToData(parse, rows).value <==>
              exists i :: 0 <= i < |rows| && parse(rows[i]).Ok? && parse(rows[i]).value.0 == name
    decreases |rows|
  {
    if rows != [] {
      var init := rows[..|rows| - 1];
      RowsToDataKeys(parse, init, name);
      assert forall i :: 0 <= i < |init| ==> init[i] == rows[i];
      if exists i :: 0 <= i < |rows| && parse(rows[i]).Ok? && parse(rows[i]).value.0 == name {
        var i :| 0 <= i < |rows| && parse(rows[i]).Ok? && parse(rows[i]).value.0 == name;
        if i < |init| {
          assert parse(init[i]).Ok? && parse(init[i]).value.0 == name;
        }
      }
    }
  }

  /** A name's record comes from the last row that carries that name. */
  lemma {:induction false} RowsToDataLastWins(parse: RowParser, rows: seq<Row>, i: nat)
    requires RowsToData(parse, rows).Ok?
    requires i < |rows| && parse(rows[i]).Ok?
    requires forall j :: i < j < |rows| && parse(rows[j]).Ok? ==>
               parse(rows[j]).value.0 != parse(rows[i]).value.0
    ensures parse(rows[i]).value.0 in RowsToData(parse, rows).value
    ensures RowsToData(parse, rows).value[parse(rows[i]).value.0] == parse(rows[i]).value.1
    decreases |rows|
  {
    if i < |rows| - 1 {
      var init := rows[..|rows| - 1];
      assert init[i] == rows[i];
      forall j | i < j < |init| && parse(init[j]).Ok?
        ensures parse(init[j]).value.0 != parse(init[i]).value.0
      {
        assert init[j] == rows[j];
      }
      RowsToDataLastWins(parse, init, i);
    }
  }

  /** The `for entry in ...` loop over the body rows. */
  method ExtractRows(conv: FloatConversion, rows: seq<Row>) returns (r: Result<PageData>)
    ensures r == RowsToData(RowParserFor(conv), rows)
  {
    var result: PageData := map[];
    for i := 0 to |rows|
      invariant RowsToData(RowParserFor(conv), rows[..i]) == Ok(result)
    {
      assert rows[..i + 1][..i] == rows[..i];
      var entry := ParseRow(conv, rows[i]);
      if entry.Err? {
        RowsToDataPrefixErr(RowParserFor(conv), rows, i + 1);
        return Err(entry.error);
      }
      result := result[entry.value.0 := entry.value.1];
    }
    assert rows[..|rows|] == rows;
    return Ok(result);
  }

  /** What `parse_calorizator_page` returns for a document. */
  function PageSpec(conv: FloatConversion, doc: Document): Result<PageData>
  {
    match doc.mainContent
    case None => Err(AttributeError)
    case Some(tables) =>
      match SelectedTable(tables)
      case None => Err(MainTableNotFound)
      case Some(t) =>
        match t.bodyRows
        case None => Err(AttributeError)
        case Some(rows) => RowsToData(RowParserFor(conv), rows)
  }

  /** Every error of the row loop is an `IndexError` or an `AttributeError`. */
  lemma {:induction false} RowsToDataErrors(conv: FloatConversion, rows: seq<Row>)
    ensures RowsToData(RowParserFor(conv), rows).Err? ==>
              RowsToData(RowParserFor(conv), rows).error in {IndexError, AttributeError}
    decreases |rows|
  {
    if rows != [] {
      RowsToDataErrors(conv, rows[..|rows| - 1]);
    }
  }

  /** `parse_calorizator_page`: the records of the first table whose header
      matches; `MainTableNotFound` exactly when no table of the main content
      matches. */
  method ParseCalorizatorPage(conv: FloatConversion, doc: Document) returns (r: Result<PageData>)
    ensures r == PageSpec(conv, doc)
    ensures r == Err(MainTableNotFound) <==>
              doc.mainContent.Some? &&
              forall j :: 0 <= j < |doc.mainContent.value| ==> !IsTargetTable(doc.mainContent.value[j])
    ensures r.Ok? ==> exists k :: FirstTarget(doc.mainContent.value) == Some(k) &&
                                  doc.mainContent.value[k].bodyRows.Some? &&
                                  r == RowsToData(RowParserFor(conv), doc.mainContent.value[k].bodyRows.value)
  {
    if doc.mainContent.None? {
      // `main_content.find_all` on None
      return Err(AttributeError);
    }
    var tables := doc.mainContent.value;
    var found := SelectTable(tables);
    if found.Err? {
      return Err(found.error);
    }
    var mainTable := tables[found.value];
    if mainTable.bodyRows.None? {
      // `main_table.find("tbody").find_all` on None
      return Err(AttributeError);
    }
    r := ExtractRows(conv, mainTable.bodyRows.value);
    RowsToDataErrors(conv, mainTable.bodyRows.value);
  }

  /** A table that is not the nutrition table, malformed or not, can be added
      anywhere in the main content without changing what the page yields. */
  lemma NonTargetTableChangesNothing(conv: FloatConversion, before: seq<Table>, t: Table, after: seq<Table>)
    requires !IsTargetTable(t)
    ensures PageSpec(conv, Document(Some(before + [t] + after))) == PageSpec(conv, Document(Some(before + after)))
  {
    NonTargetTableIgnored(before, t, after);
  }
}
