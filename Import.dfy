/**
 * The table `getDataTable` hands to the database: the rows of
 * `getAutosomalDNAList` in order, or no row at all when parsing raised.
 */
module Import {
  import opened Wrappers
  import opened Detection
  import opened Autosomal

  /** The rows of the table for a file's lines and a kit number. */
  function DataTable(lines: seq<string>, kitNo: string): seq<Row> {
    match AutosomalDNAList(lines, kitNo)
    case None => []
    case Some(rows) => rows
  }

  /** `getDataTable` on already-read lines; the `catch` leaves the table empty. */
  method GetDataTable(lines: seq<string>, kitNo: string) returns (table: seq<Row>)
    ensures table == DataTable(lines, kitNo)
  {
    var result := GetAutosomalDNAList(lines, kitNo);
    match result {
      case None => table := [];
      case Some(rows) => table := AddRows(rows);
    }
  }

  /** The `foreach` that adds each row of the list to the table, in order. */
  method AddRows(rows: seq<Row>) returns (table: seq<Row>)
    ensures table == rows
  {
    table := [];
    for k := 0 to |rows|
      invariant table == rows[..k]
    {
      table := table + [rows[k]];
    }
    assert rows[..|rows|] == rows;
  }

  /** An unrecognised file gives an empty table. */
  lemma UnknownFormatNoRows(lines: seq<string>, kitNo: string)
    requires forall j :: 0 <= j < |lines| && j <= LastScannedIndex ==> ClassifyLine(lines[j]).None?
    ensures DataTable(lines, kitNo) == []
  {
    DetectNoneIff(lines);
  }

  /** One line too short for the detected layout, anywhere in the file,
      empties the whole table: there is no partial import. */
  lemma MalformedLineNoRows(lines: seq<string>, kitNo: string, fmt: Format, i: nat)
    requires Detect(lines) == Some(fmt)
    requires i < |lines| && ParseLine(fmt, kitNo, lines[i]) == Malformed
    ensures DataTable(lines, kitNo) == []
  {
    ParseLinesFailsIff(fmt, kitNo, lines);
  }

  /** With a recognised layout and no short line, the table holds the rows
      of the lines that are neither skipped nor filtered, in line order:
      at most one per line, each with the kit number and a stored chromosome. */
  lemma ParsedTable(lines: seq<string>, kitNo: string, fmt: Format)
    requires Detect(lines) == Some(fmt)
    requires forall i :: 0 <= i < |lines| ==> ParseLine(fmt, kitNo, lines[i]) != Malformed
    ensures ParseLines(fmt, kitNo, lines) == Some(DataTable(lines, kitNo))
    ensures |DataTable(lines, kitNo)| <= |lines|
    ensures forall row :: row in DataTable(lines, kitNo) ==>
      row.kitNo == kitNo && !Excluded(row.chromosome)
      && exists i :: 0 <= i < |lines| && ParseLine(fmt, kitNo, lines[i]) == Emitted(row)
  {
    ParseLinesFailsIff(fmt, kitNo, lines);
    ParseLinesRows(fmt, kitNo, lines);
    ParsedRowsShape(fmt, kitNo, lines);
  }

  /** Whatever the input, no stored row has a Y, MT or 0 chromosome or
      another kit's number, and there are never more rows than lines. */
  lemma TableShape(lines: seq<string>, kitNo: string)
    ensures |DataTable(lines, kitNo)| <= |lines|
    ensures forall row :: row in DataTable(lines, kitNo) ==> row.kitNo == kitNo && !Excluded(row.chromosome)
  {
    match Detect(lines)
    case None =>
    case Some(fmt) =>
      if ParseLines(fmt, kitNo, lines).Some? {
        ParseLinesRows(fmt, kitNo, lines);
        ParsedRowsShape(fmt, kitNo, lines);
      }
  }
}
