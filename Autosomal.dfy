/**
 * Record normalisation (`getAutosomalDNAList`): every line of a file whose
 * layout is known becomes at most one five-field genotype row.
 */
module Autosomal {
  import opened Wrappers
  import opened Text
  import opened Detection

  /** The row `{ kit_no, rsid, chr, pos, genotype }` that the source appends. */
  datatype Row = Row(kitNo: string, rsid: string, chromosome: string, position: string, genotype: string)

  /** What the loop body does with one line. */
  datatype LineResult =
    | Skipped          // a header, comment or blank line: `continue`
    | Filtered         // a Y, MT or 0 chromosome: nothing appended
    | Emitted(row: Row)
    | Malformed        // an index past the end of the split line: an exception

  /** `getPosition`: a stub that knows no position; whatever the marker, the answer is "0". */
  function GetPosition(rsid: string): (pos: string)
    ensures pos == "0"
  {
    "0"
  }

  /** The `continue` tests of each layout, on the line as read. */
  predicate Skips(fmt: Format, line: string) {
    match fmt
    case FTDNA => StartsWith(line, "RSID") || Trim(line) == ""
    case TwentyThreeAndMe => StartsWith(line, "#") || Trim(line) == ""
    case Ancestry => StartsWith(line, "#") || StartsWith(line, "rsid\t") || Trim(line) == ""
    case Geno2 => StartsWith(line, "SNP,") || Trim(line) == ""
    case DecodeMe => StartsWith(line, "Name,") || Trim(line) == ""
  }

  /** The fields a data line is split into; only FTDNA strips quotes first. */
  function Fields(fmt: Format, line: string): seq<string> {
    match fmt
    case FTDNA => Split(RemoveAll(line, '"'), ',')
    case TwentyThreeAndMe => Split(line, '\t')
    case Ancestry => Split(line, '\t')
    case Geno2 => Split(line, ',')
    case DecodeMe => Split(line, ',')
  }

  /** One more than the highest field index the layout reads. */
  function FieldsNeeded(fmt: Format): nat {
    match fmt
    case FTDNA => 4
    case TwentyThreeAndMe => 4
    case Ancestry => 5
    case Geno2 => 4
    case DecodeMe => 6
  }

  /** The chromosomes never stored. */
  predicate Excluded(chr: string) {
    chr == "Y" || chr == "MT" || chr == "0"
  }

  /** `(rsid, chr, pos, genotype)` picked from the fields, with the fixes of each layout. */
  function Pick(fmt: Format, data: seq<string>): (string, string, string, string)
    requires |data| >= FieldsNeeded(fmt)
  {
    match fmt
    case FTDNA => (data[0], data[1], data[2], data[3])
    case TwentyThreeAndMe => (data[0], data[1], data[2], data[3])
    case Ancestry => (data[0], if data[1] == "23" then "X" else data[1], data[2], data[3] + data[4])
    case Geno2 => (data[0], data[1], GetPosition(data[0]), data[2] + data[3])
    case DecodeMe => (data[0], data[2], data[3], data[5])
  }

  /** One pass of the loop body. */
  function ParseLine(fmt: Format, kitNo: string, line: string): LineResult {
    if Skips(fmt, line) then Skipped
    else
      var data := Fields(fmt, line);
      if |data| < FieldsNeeded(fmt) then Malformed
      else
        var (rsid, chr, pos, genotype) := Pick(fmt, data);
        if Excluded(chr) then Filtered else Emitted(Row(kitNo, rsid, chr, pos, genotype))
  }

  /** `rows` in front of a parse outcome; a failed parse stays failed. */
  function Prepend(rows: seq<Row>, rest: Option<seq<Row>>): Option<seq<Row>> {
    match rest
    case None => None
    case Some(more) => Some(rows + more)
  }

  /** What the loop body does with each line of the file. */
  function Results(fmt: Format, kitNo: string, lines: seq<string>): (rs: seq<LineResult>)
    ensures |rs| == |lines|
  {
    seq(|lines|, j requires 0 <= j < |lines| => ParseLine(fmt, kitNo, lines[j]))
  }

  /** The rows of the emitted lines in order, or `None` once a line raised. */
  function Collect(rs: seq<LineResult>): Option<seq<Row>> {
    if |rs| == 0 then Some([])
    else
      match rs[0]
      case Malformed => None
      case Emitted(row) => Prepend([row], Collect(rs[1..]))
      case Skipped => Collect(rs[1..])
      case Filtered => Collect(rs[1..])
  }

  lemma PrependNothing(rest: Option<seq<Row>>)
    ensures Prepend([], rest) == rest
  {
    if rest.Some? {
      assert [] + rest.value == rest.value;
    }
  }

  /** The whole loop over the lines of a file of layout `fmt`. */
  function ParseLines(fmt: Format, kitNo: string, lines: seq<string>): Option<seq<Row>> {
    Collect(Results(fmt, kitNo, lines))
  }

  /** `getAutosomalDNAList` on already-read lines: no rows for an unknown
      layout, `None` when the parse raises. */
  function AutosomalDNAList(lines: seq<string>, kitNo: string): Option<seq<Row>> {
    match Detect(lines)
    case None => Some([])
    case Some(fmt) => ParseLines(fmt, kitNo, lines)
  }

  /** The body of the `foreach` for one line: the `continue`s return
      `Skipped`, an index past the end of `data` returns `Malformed`. */
  method ProcessLine(fmt: Format, kitNo: string, line: string) returns (r: LineResult)
    ensures r == ParseLine(fmt, kitNo, line)
  {
    var data: seq<string>;
    var rsid, chr, pos, genotype: string;
    match fmt {
      case FTDNA =>
        if StartsWith(line, "RSID") { return Skipped; }
        if Trim(line) == "" { return Skipped; }
        var tLine := RemoveAll(line, '"');
        data := Split(tLine, ',');
        if |data| < 4 { return Malformed; }
        rsid, chr, pos, genotype := data[0], data[1], data[2], data[3];
      case TwentyThreeAndMe =>
        if StartsWith(line, "#") { return Skipped; }
        if Trim(line) == "" { return Skipped; }
        data := Split(line, '\t');
        if |data| < 4 { return Malformed; }
        rsid, chr, pos, genotype := data[0], data[1], data[2], data[3];
      case Ancestry =>
        if StartsWith(line, "#") { return Skipped; }
        if StartsWith(line, "rsid\t") { return Skipped; }
        if Trim(line) == "" { return Skipped; }
        data := Split(line, '\t');
        if |data| < 5 { return Malformed; }
        rsid, chr := data[0], data[1];
        if chr == "23" {
          chr := "X";
        }
        pos, genotype := data[2], data[3] + data[4];
      case Geno2 =>
        if StartsWith(line, "SNP,") { return Skipped; }
        if Trim(line) == "" { return Skipped; }
        data := Split(line, ',');
        if |data| < 4 { return Malformed; }
        rsid, chr := data[0], data[1];
        pos := GetPosition(rsid);
        genotype := data[2] + data[3];
      case DecodeMe =>
        if StartsWith(line, "Name,") { return Skipped; }
        if Trim(line) == "" { return Skipped; }
        data := Split(line, ',');
        if |data| < 6 { return Malformed; }
        rsid, chr, pos, genotype := data[0], data[2], data[3], data[5];
    }
    if chr != "Y" && chr != "MT" {
      if chr != "0" {
        return Emitted(Row(kitNo, rsid, chr, pos, genotype));
      }
    }
    return Filtered;
  }

  lemma PrependPrepend(a: seq<Row>, b: seq<Row>, rest: Option<seq<Row>>)
    ensures Prepend(a, Prepend(b, rest)) == Prepend(a + b, rest)
  {
    if rest.Some? {
      assert a + (b + rest.value) == (a + b) + rest.value;
    }
  }

  lemma CollectStep(rs: seq<LineResult>, i: nat)
    requires i < |rs|
    ensures Collect(rs[i..]) ==
      match rs[i]
      case Malformed => None
      case Emitted(row) => Prepend([row], Collect(rs[i + 1..]))
      case _ => Collect(rs[i + 1..])
  {
    assert rs[i..][0] == rs[i] && rs[i..][1..] == rs[i + 1..];
  }

  /** The `foreach` of `getAutosomalDNAList` for a file of known layout `fmt`,
      appending one row per emitted line to `rows`. */
  method ParseAll(fmt: Format, kitNo: string, lines: seq<string>) returns (result: Option<seq<Row>>)
    ensures result == ParseLines(fmt, kitNo, lines)
  {
    ghost var rs := Results(fmt, kitNo, lines);
    var rows: seq<Row> := [];
    assert rs[0..] == rs;
    PrependNothing(Collect(rs));
    for i := 0 to |lines|
      invariant Collect(rs) == Prepend(rows, Collect(rs[i..]))
    {
      var r := ProcessLine(fmt, kitNo, lines[i]);
      CollectStep(rs, i);
      match r {
        case Malformed => return None;
        case Emitted(row) =>
          PrependPrepend(rows, [row], Collect(rs[i + 1..]));
          rows := rows + [row];
        case Skipped =>
        case Filtered =>
      }
    }
    assert rs[|lines|..] == [] && rows + [] == rows;
    return Some(rows);
  }

  /** `getAutosomalDNAList` after `File.ReadAllLines`: an unknown layout
      gives no rows, a known one is parsed line by line. */
  method GetAutosomalDNAList(lines: seq<string>, kitNo: string) returns (result: Option<seq<Row>>)
    ensures result == AutosomalDNAList(lines, kitNo)
  {
    var t := DetectDNAFileType(lines);
    if t.None? {
      return Some([]);
    }
    result := ParseAll(t.value, kitNo, lines);
  }

  // ----- the loop: order, all-or-nothing, one row per line at most -----

  /** The outcome over `a + b` is the outcome over `a` followed by the outcome over `b`. */
  function Then(first: Option<seq<Row>>, second: Option<seq<Row>>): Option<seq<Row>> {
    match first
    case None => None
    case Some(rows) => Prepend(rows, second)
  }

  lemma {:induction false} CollectAppend(a: seq<LineResult>, b: seq<LineResult>)
    ensures Collect(a + b) == Then(Collect(a), Collect(b))
  {
    if |a| == 0 {
      assert a + b == b;
      PrependNothing(Collect(b));
    } else {
      assert (a + b)[0] == a[0] && (a + b)[1..] == a[1..] + b;
      CollectAppend(a[1..], b);
      match a[0]
      case Emitted(row) =>
        var rest := Collect(a[1..]);
        if rest.Some? {
          PrependPrepend([row], rest.value, Collect(b));
        }
      case _ =>
    }
  }

  lemma {:induction false} CollectNoneIff(rs: seq<LineResult>)
    ensures Collect(rs).None? <==> exists i :: 0 <= i < |rs| && rs[i].Malformed?
  {
    if |rs| > 0 {
      CollectNoneIff(rs[1..]);
      if exists i :: 0 <= i < |rs[1..]| && rs[1..][i].Malformed? {
        var i :| 0 <= i < |rs[1..]| && rs[1..][i].Malformed?;
        assert rs[i + 1].Malformed?;
      }
      if exists i :: 0 <= i < |rs| && rs[i].Malformed? {
        var i :| 0 <= i < |rs| && rs[i].Malformed?;
        if i > 0 {
          assert rs[1..][i - 1].Malformed?;
        }
      }
    }
  }

  lemma {:induction false} CollectRows(rs: seq<LineResult>)
    requires Collect(rs).Some?
    ensures |Collect(rs).value| <= |rs|
    ensures forall row :: row in Collect(rs).value ==> exists i :: 0 <= i < |rs| && rs[i] == Emitted(row)
    ensures forall i :: 0 <= i < |rs| && rs[i].Emitted? ==> rs[i].row in Collect(rs).value
  {
    if |rs| > 0 {
      CollectRows(rs[1..]);
      forall row | row in Collect(rs[1..]).value
        ensures exists i :: 0 <= i < |rs| && rs[i] == Emitted(row)
      {
        var i :| 0 <= i < |rs[1..]| && rs[1..][i] == Emitted(row);
        assert rs[i + 1] == Emitted(row);
      }
      forall i | 0 <= i < |rs| && rs[i].Emitted?
        ensures rs[i].row in Collect(rs).value
      {
        if i > 0 {
          assert rs[1..][i - 1] == rs[i];
        }
      }
    }
  }

  lemma ResultsAppend(fmt: Format, kitNo: string, a: seq<string>, b: seq<string>)
    ensures Results(fmt, kitNo, a + b) == Results(fmt, kitNo, a) + Results(fmt, kitNo, b)
  {
    var ra, rb, rab := Results(fmt, kitNo, a), Results(fmt, kitNo, b), Results(fmt, kitNo, a + b);
    forall i | 0 <= i < |rab|
      ensures rab[i] == (ra + rb)[i]
    {
      if i < |a| {
        assert (a + b)[i] == a[i];
      } else {
        assert (a + b)[i] == b[i - |a|];
      }
    }
  }

  /** Parsing two files back to back is parsing the first and then the
      second: rows keep the order of their lines and each line is
      handled on its own. */
  lemma ParseLinesAppend(fmt: Format, kitNo: string, a: seq<string>, b: seq<string>)
    ensures ParseLines(fmt, kitNo, a + b) == Then(ParseLines(fmt, kitNo, a), ParseLines(fmt, kitNo, b))
  {
    ResultsAppend(fmt, kitNo, a, b);
    CollectAppend(Results(fmt, kitNo, a), Results(fmt, kitNo, b));
  }

  /** The parse fails exactly when some line is too short for its layout,
      wherever that line is: there is no partial result. */
  lemma ParseLinesFailsIff(fmt: Format, kitNo: string, lines: seq<string>)
    ensures ParseLines(fmt, kitNo, lines).None? <==>
      exists i :: 0 <= i < |lines| && ParseLine(fmt, kitNo, lines[i]) == Malformed
  {
    var rs := Results(fmt, kitNo, lines);
    CollectNoneIff(rs);
    assert forall i :: 0 <= i < |lines| ==> rs[i] == ParseLine(fmt, kitNo, lines[i]);
  }

  /** A successful parse yields at most one row per line, every row comes
      from a line, and every emitted line's row is there. */
  lemma ParseLinesRows(fmt: Format, kitNo: string, lines: seq<string>)
    requires ParseLines(fmt, kitNo, lines).Some?
    ensures |ParseLines(fmt, kitNo, lines).value| <= |lines|
    ensures forall row :: row in ParseLines(fmt, kitNo, lines).value ==>
      exists i :: 0 <= i < |lines| && ParseLine(fmt, kitNo, lines[i]) == Emitted(row)
    ensures forall i :: 0 <= i < |lines| && ParseLine(fmt, kitNo, lines[i]).Emitted? ==>
      ParseLine(fmt, kitNo, lines[i]).row in ParseLines(fmt, kitNo, lines).value
  {
    var rs := Results(fmt, kitNo, lines);
    CollectRows(rs);
    assert forall i :: 0 <= i < |lines| ==> rs[i] == ParseLine(fmt, kitNo, lines[i]);
  }

  // ----- one line: skip rules, short lines, field mapping -----

  /** The lines each layout skips: its header or comment prefix, tested on
      the line as read, and lines of white space only. */
  lemma SkipRules(kitNo: string, line: string)
    ensures ParseLine(FTDNA, kitNo, line) == Skipped <==> StartsWith(line, "RSID") || IsBlank(line)
    ensures ParseLine(TwentyThreeAndMe, kitNo, line) == Skipped <==> StartsWith(line, "#") || IsBlank(line)
    ensures ParseLine(Ancestry, kitNo, line) == Skipped <==>
      StartsWith(line, "#") || StartsWith(line, "rsid\t") || IsBlank(line)
    ensures ParseLine(Geno2, kitNo, line) == Skipped <==> StartsWith(line, "SNP,") || IsBlank(line)
    ensures ParseLine(DecodeMe, kitNo, line) == Skipped <==> StartsWith(line, "Name,") || IsBlank(line)
  {
    TrimEmptyIffBlank(line);
    SkippedIff(FTDNA, kitNo, line);
    SkippedIff(TwentyThreeAndMe, kitNo, line);
    SkippedIff(Ancestry, kitNo, line);
    SkippedIff(Geno2, kitNo, line);
    SkippedIff(DecodeMe, kitNo, line);
  }

  lemma SkippedIff(fmt: Format, kitNo: string, line: string)
    ensures ParseLine(fmt, kitNo, line) == Skipped <==> Skips(fmt, line)
  {
  }

  lemma MalformedIff(fmt: Format, kitNo: string, line: string)
    ensures ParseLine(fmt, kitNo, line) == Malformed <==> !Skips(fmt, line) && |Fields(fmt, line)| < FieldsNeeded(fmt)
  {
  }

  /** A line that is not skipped raises exactly when it has fewer separators
      than the highest field index its layout reads; a line of FTDNA counts
      its commas with or without the quotes. */
  lemma ShortLines(kitNo: string, line: string)
    ensures ParseLine(FTDNA, kitNo, line) == Malformed <==>
      !(StartsWith(line, "RSID") || IsBlank(line)) && multiset(line)[','] < 3
    ensures ParseLine(TwentyThreeAndMe, kitNo, line) == Malformed <==>
      !(StartsWith(line, "#") || IsBlank(line)) && multiset(line)['\t'] < 3
    ensures ParseLine(Ancestry, kitNo, line) == Malformed <==>
      !(StartsWith(line, "#") || StartsWith(line, "rsid\t") || IsBlank(line)) && multiset(line)['\t'] < 4
    ensures ParseLine(Geno2, kitNo, line) == Malformed <==>
      !(StartsWith(line, "SNP,") || IsBlank(line)) && multiset(line)[','] < 3
    ensures ParseLine(DecodeMe, kitNo, line) == Malformed <==>
      !(StartsWith(line, "Name,") || IsBlank(line)) && multiset(line)[','] < 5
  {
    TrimEmptyIffBlank(line);
    RemoveAllKeeps(line, '"');
    SplitLength(RemoveAll(line, '"'), ',');
    SplitLength(line, ',');
    SplitLength(line, '\t');
    MalformedIff(FTDNA, kitNo, line);
    MalformedIff(TwentyThreeAndMe, kitNo, line);
    MalformedIff(Ancestry, kitNo, line);
    MalformedIff(Geno2, kitNo, line);
    MalformedIff(DecodeMe, kitNo, line);
  }

  /** FTDNA: fields 0, 1, 2, 3 of the comma-split line without its quotes. */
  lemma FtdnaRow(kitNo: string, line: string)
    requires !StartsWith(line, "RSID") && !IsBlank(line)
    requires |Split(RemoveAll(line, '"'), ',')| >= 4
    ensures var d := Split(RemoveAll(line, '"'), ',');
      ParseLine(FTDNA, kitNo, line) ==
        if Excluded(d[1]) then Filtered else Emitted(Row(kitNo, d[0], d[1], d[2], d[3]))
  {
    TrimEmptyIffBlank(line);
  }

  /** A field between double quotes, as FTDNA writes its data lines. */
  function Quoted(field: string): string {
    ['"'] + field + ['"']
  }

  lemma UnquoteField(field: string)
    requires '"' !in field
    ensures RemoveAll(Quoted(field), '"') == field
  {
    RemoveAllAppend(['"'] + field, ['"'], '"');
    RemoveAllAppend(['"'], field, '"');
    RemoveAllAbsent(field, '"');
    assert RemoveAll(['"'], '"') == [];
  }

  lemma UnquoteFields(a: string, b: string, c: string, d: string)
    requires '"' !in a && '"' !in b && '"' !in c && '"' !in d
    ensures RemoveAll(Join([Quoted(a), Quoted(b), Quoted(c), Quoted(d)], ','), '"') == Join([a, b, c, d], ',')
  {
    var comma := [','];
    JoinFour(Quoted(a), Quoted(b), Quoted(c), Quoted(d), ',');
    JoinFour(a, b, c, d, ',');
    RemoveAllAbsent(comma, '"');
    UnquoteField(a);
    UnquoteField(b);
    UnquoteField(c);
    UnquoteField(d);
    RemoveAllAppend(Quoted(c) + comma, Quoted(d), '"');
    RemoveAllAppend(Quoted(c), comma, '"');
    RemoveAllAppend(Quoted(b) + comma, Quoted(c) + comma + Quoted(d), '"');
    RemoveAllAppend(Quoted(b), comma, '"');
    RemoveAllAppend(Quoted(a) + comma, Quoted(b) + comma + (Quoted(c) + comma + Quoted(d)), '"');
    RemoveAllAppend(Quoted(a), comma, '"');
  }

  /** A quoted FTDNA data line yields its four fields without the quotes.
      The `RSID` test looks at the line before the quotes go, so a quoted
      header line is not skipped: it yields a row too. */
  lemma FtdnaQuotedRow(kitNo: string, rsid: string, chr: string, pos: string, genotype: string)
    requires forall f :: f in [rsid, chr, pos, genotype] ==> '"' !in f && ',' !in f
    ensures ParseLine(FTDNA, kitNo, Join([Quoted(rsid), Quoted(chr), Quoted(pos), Quoted(genotype)], ',')) ==
      if Excluded(chr) then Filtered else Emitted(Row(kitNo, rsid, chr, pos, genotype))
  {
    var line := Join([Quoted(rsid), Quoted(chr), Quoted(pos), Quoted(genotype)], ',');
    assert line[0] == '"';
    UnquoteFields(rsid, chr, pos, genotype);
    SplitJoin([rsid, chr, pos, genotype], ',');
    FtdnaRow(kitNo, line);
  }

  /** 23andMe: fields 0, 1, 2, 3 of the tab-split line. */
  lemma TwentyThreeAndMeRow(kitNo: string, line: string)
    requires !StartsWith(line, "#") && !IsBlank(line)
    requires |Split(line, '\t')| >= 4
    ensures var d := Split(line, '\t');
      ParseLine(TwentyThreeAndMe, kitNo, line) ==
        if Excluded(d[1]) then Filtered else Emitted(Row(kitNo, d[0], d[1], d[2], d[3]))
  {
    TrimEmptyIffBlank(line);
  }

  /** Ancestry: chromosome "23" becomes "X" and no other value changes; the
      genotype is the two allele fields in file order. */
  lemma AncestryRow(kitNo: string, line: string)
    requires !StartsWith(line, "#") && !StartsWith(line, "rsid\t") && !IsBlank(line)
    requires |Split(line, '\t')| >= 5
    ensures var d := Split(line, '\t');
      var chr := if d[1] == "23" then "X" else d[1];
      ParseLine(Ancestry, kitNo, line) ==
        if Excluded(chr) then Filtered else Emitted(Row(kitNo, d[0], chr, d[2], d[3] + d[4]))
  {
    TrimEmptyIffBlank(line);
  }

  /** Geno2: the position is always "0"; the genotype is fields 2 and 3 joined. */
  lemma Geno2Row(kitNo: string, line: string)
    requires !StartsWith(line, "SNP,") && !IsBlank(line)
    requires |Split(line, ',')| >= 4
    ensures var d := Split(line, ',');
      ParseLine(Geno2, kitNo, line) ==
        if Excluded(d[1]) then Filtered else Emitted(Row(kitNo, d[0], d[1], "0", d[2] + d[3]))
  {
    TrimEmptyIffBlank(line);
  }

  /** deCODEme: fields 0, 2, 3 and 5; fields 1 and 4 are not read. */
  lemma DecodeMeRow(kitNo: string, line: string)
    requires !StartsWith(line, "Name,") && !IsBlank(line)
    requires |Split(line, ',')| >= 6
    ensures var d := Split(line, ',');
      ParseLine(DecodeMe, kitNo, line) ==
        if Excluded(d[2]) then Filtered else Emitted(Row(kitNo, d[0], d[2], d[3], d[5]))
  {
    TrimEmptyIffBlank(line);
  }

  /** Every row a line yields carries the kit number, a chromosome other than
      Y, MT and 0, no Ancestry "23", a Geno2 position of "0" and, for FTDNA,
      no quote character. */
  lemma EmittedRowShape(fmt: Format, kitNo: string, line: string)
    requires ParseLine(fmt, kitNo, line).Emitted?
    ensures var row := ParseLine(fmt, kitNo, line).row;
      row.kitNo == kitNo && !Excluded(row.chromosome)
      && (fmt == Ancestry ==> row.chromosome != "23")
      && (fmt == Geno2 ==> row.position == "0")
      && (fmt == FTDNA ==> '"' !in row.rsid && '"' !in row.chromosome && '"' !in row.position && '"' !in row.genotype)
  {
    if fmt == FTDNA {
      SplitPieceChars(RemoveAll(line, '"'), ',');
    }
  }

  /** Every row of a successful parse has the shape of `EmittedRowShape`. */
  lemma ParsedRowsShape(fmt: Format, kitNo: string, lines: seq<string>)
    requires ParseLines(fmt, kitNo, lines).Some?
    ensures forall row :: row in ParseLines(fmt, kitNo, lines).value ==>
      row.kitNo == kitNo && !Excluded(row.chromosome)
      && (fmt == Ancestry ==> row.chromosome != "23")
      && (fmt == Geno2 ==> row.position == "0")
      && (fmt == FTDNA ==> '"' !in row.rsid && '"' !in row.chromosome && '"' !in row.position && '"' !in row.genotype)
  {
    ParseLinesRows(fmt, kitNo, lines);
    forall row | row in ParseLines(fmt, kitNo, lines).value
      ensures row.kitNo == kitNo && !Excluded(row.chromosome)
      ensures fmt == Ancestry ==> row.chromosome != "23"
      ensures fmt == Geno2 ==> row.position == "0"
      ensures fmt == FTDNA ==> '"' !in row.rsid && '"' !in row.chromosome && '"' !in row.position && '"' !in row.genotype
    {
      var i :| 0 <= i < |lines| && ParseLine(fmt, kitNo, lines[i]) == Emitted(row);
      EmittedRowShape(fmt, kitNo, lines[i]);
    }
  }
}
