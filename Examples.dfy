/**
 * Whole files run through detection and normalisation.
 */
module Examples {
  import opened Wrappers
  import opened Text
  import opened Detection
  import opened Autosomal
  import opened Import

  // ----- a 23andMe file -----

  const TwentyThreeAndMeFile: seq<string> :=
    [Header(TwentyThreeAndMe), Join(["rs1", "1", "100", "AA"], '\t'), Join(["rs2", "Y", "200", "GG"], '\t'),
     Join(["rs3", "2", "300", "CT"], '\t')]

  /** The file, line by line, as text. */
  lemma TwentyThreeAndMeFileText()
    ensures TwentyThreeAndMeFile ==
      ["# rsid\tchromosome\tposition\tgenotype", "rs1\t1\t100\tAA", "rs2\tY\t200\tGG", "rs3\t2\t300\tCT"]
  {
    JoinFour("rs1", "1", "100", "AA", '\t');
    assert "rs1" + "\t" + ("1" + "\t" + ("100" + "\t" + "AA")) == "rs1\t1\t100\tAA";
    JoinFour("rs2", "Y", "200", "GG", '\t');
    assert "rs2" + "\t" + ("Y" + "\t" + ("200" + "\t" + "GG")) == "rs2\tY\t200\tGG";
    JoinFour("rs3", "2", "300", "CT", '\t');
    assert "rs3" + "\t" + ("2" + "\t" + ("300" + "\t" + "CT")) == "rs3\t2\t300\tCT";
  }

  lemma TwentyThreeAndMeFileDetected()
    ensures Detect(TwentyThreeAndMeFile) == Some(TwentyThreeAndMe)
  {
    HeaderClassified(TwentyThreeAndMe);
    DetectIsFirstMatch(TwentyThreeAndMeFile, 0);
  }

  /** A line made of the given fields, the first of which starts with a visible
      character other than '#'. */
  lemma TwentyThreeAndMeDataLine(kitNo: string, line: string, parts: seq<string>)
    requires |parts| == 4 && forall k :: 0 <= k < 4 ==> '\t' !in parts[k]
    requires line == Join(parts, '\t')
    requires |parts[0]| > 0 && parts[0][0] != '#' && !IsWhiteSpace(parts[0][0])
    ensures ParseLine(TwentyThreeAndMe, kitNo, line) ==
      if Excluded(parts[1]) then Filtered else Emitted(Row(kitNo, parts[0], parts[1], parts[2], parts[3]))
  {
    SplitJoin(parts, '\t');
    assert line[0] == parts[0][0];
    TwentyThreeAndMeRow(kitNo, line);
  }

  lemma TwentyThreeAndMeLine0(kitNo: string)
    ensures ParseLine(TwentyThreeAndMe, kitNo, TwentyThreeAndMeFile[0]) == Skipped
  {
    var h := Header(TwentyThreeAndMe);
    assert h[0] == '#' && h[..1] == "#";
    SkippedIff(TwentyThreeAndMe, kitNo, h);
  }

  lemma TwentyThreeAndMeLine1(kitNo: string)
    ensures ParseLine(TwentyThreeAndMe, kitNo, TwentyThreeAndMeFile[1]) == Emitted(Row(kitNo, "rs1", "1", "100", "AA"))
  {
    TwentyThreeAndMeDataLine(kitNo, TwentyThreeAndMeFile[1], ["rs1", "1", "100", "AA"]);
  }

  lemma TwentyThreeAndMeLine2(kitNo: string)
    ensures ParseLine(TwentyThreeAndMe, kitNo, TwentyThreeAndMeFile[2]) == Filtered
  {
    TwentyThreeAndMeDataLine(kitNo, TwentyThreeAndMeFile[2], ["rs2", "Y", "200", "GG"]);
  }

  lemma TwentyThreeAndMeLine3(kitNo: string)
    ensures ParseLine(TwentyThreeAndMe, kitNo, TwentyThreeAndMeFile[3]) == Emitted(Row(kitNo, "rs3", "2", "300", "CT"))
  {
    TwentyThreeAndMeDataLine(kitNo, TwentyThreeAndMeFile[3], ["rs3", "2", "300", "CT"]);
  }

  /** The results of four lines, one by one. */
  lemma ResultsOfFour(fmt: Format, kitNo: string, lines: seq<string>)
    requires |lines| == 4
    ensures Results(fmt, kitNo, lines) ==
      [ParseLine(fmt, kitNo, lines[0]), ParseLine(fmt, kitNo, lines[1]),
       ParseLine(fmt, kitNo, lines[2]), ParseLine(fmt, kitNo, lines[3])]
  {
    ResultsCons(fmt, kitNo, lines);
    ResultsCons(fmt, kitNo, lines[1..]);
    ResultsCons(fmt, kitNo, lines[2..]);
    ResultsCons(fmt, kitNo, lines[3..]);
    assert lines[1..][1..] == lines[2..] && lines[2..][1..] == lines[3..] && lines[3..][1..] == [];
    assert lines[1..][0] == lines[1] && lines[2..][0] == lines[2] && lines[3..][0] == lines[3];
    assert Results(fmt, kitNo, lines[3..][1..]) == [];
  }

  /** The first line's result, then the rest's. */
  lemma ResultsCons(fmt: Format, kitNo: string, lines: seq<string>)
    requires |lines| > 0
    ensures Results(fmt, kitNo, lines) == [ParseLine(fmt, kitNo, lines[0])] + Results(fmt, kitNo, lines[1..])
  {
    ResultsAppend(fmt, kitNo, [lines[0]], lines[1..]);
    assert [lines[0]] + lines[1..] == lines;
  }

  lemma CollectSkipEmitFilterEmit(r1: Row, r3: Row)
    ensures Collect([Skipped, Emitted(r1), Filtered, Emitted(r3)]) == Some([r1, r3])
  {
    var s3: seq<LineResult> := [Emitted(r3)];
    assert s3[1..] == [] && [r3] + [] == [r3];
    assert Collect(s3) == Some([r3]);
    var s2 := [Filtered] + s3;
    assert s2[1..] == s3;
    var s1 := [Emitted(r1)] + s2;
    assert s1[1..] == s2 && Collect(s2) == Collect(s3);
    assert [r1] + [r3] == [r1, r3];
    assert Collect(s1) == Some([r1, r3]);
    var s0 := [Skipped] + s1;
    assert s0[1..] == s1;
    assert s0 == [Skipped, Emitted(r1), Filtered, Emitted(r3)];
  }

  /** The header is skipped, the Y marker is dropped, the rest keep their order. */
  lemma TwentyThreeAndMeExample(kitNo: string)
    ensures DataTable(TwentyThreeAndMeFile, kitNo) ==
      [Row(kitNo, "rs1", "1", "100", "AA"), Row(kitNo, "rs3", "2", "300", "CT")]
  {
    TwentyThreeAndMeFileDetected();
    TwentyThreeAndMeLine0(kitNo);
    TwentyThreeAndMeLine1(kitNo);
    TwentyThreeAndMeLine2(kitNo);
    TwentyThreeAndMeLine3(kitNo);
    var r1, r3 := Row(kitNo, "rs1", "1", "100", "AA"), Row(kitNo, "rs3", "2", "300", "CT");
    ResultsOfFour(TwentyThreeAndMe, kitNo, TwentyThreeAndMeFile);
    CollectSkipEmitFilterEmit(r1, r3);
  }

  // ----- an Ancestry file -----

  const AncestryFile: seq<string> := [Header(Ancestry), Join(["rs9", "23", "50", "A", "T"], '\t')]

  /** The file, line by line, as text. */
  lemma AncestryFileText()
    ensures AncestryFile == ["rsid\tchromosome\tposition\tallele1\tallele2", "rs9\t23\t50\tA\tT"]
  {
    var parts := ["rs9", "23", "50", "A", "T"];
    assert parts[1..] == ["23", "50", "A", "T"];
    JoinFour("23", "50", "A", "T", '\t');
    assert Join(parts, '\t') == "rs9" + "\t" + Join(parts[1..], '\t');
    assert "rs9" + "\t" + ("23" + "\t" + ("50" + "\t" + ("A" + "\t" + "T"))) == "rs9\t23\t50\tA\tT";
  }

  lemma AncestryFileDetected()
    ensures Detect(AncestryFile) == Some(Ancestry)
  {
    HeaderClassified(Ancestry);
    DetectIsFirstMatch(AncestryFile, 0);
  }

  /** A line that starts with the field `rsid`, then a tab, is a header. */
  lemma AncestryHeaderLine(kitNo: string, line: string, parts: seq<string>)
    requires |parts| >= 2 && line == Join(parts, '\t') && parts[0] == "rsid"
    ensures ParseLine(Ancestry, kitNo, line) == Skipped
  {
    assert line == parts[0] + ['\t'] + Join(parts[1..], '\t');
    assert line[..5] == "rsid\t";
    SkippedIff(Ancestry, kitNo, line);
  }

  /** A first field other than `p` keeps a joined line from starting with `p`
      and the separator. */
  lemma FirstFieldNotPrefix(parts: seq<string>, c: char, p: string)
    requires |parts| >= 2 && c !in parts[0] && c !in p && parts[0] != p
    ensures !StartsWith(Join(parts, c), p + [c])
  {
    var line := Join(parts, c);
    assert line == parts[0] + [c] + Join(parts[1..], c);
    var n := |parts[0]|;
    if n < |p| {
      assert line[n] == c && p[n] != c;
    } else if n > |p| {
      assert line[|p|] == parts[0][|p|] && parts[0][|p|] != c;
    } else {
      assert line[..n] == parts[0];
    }
  }

  lemma AncestryDataLine(kitNo: string, line: string, parts: seq<string>)
    requires |parts| == 5 && forall k :: 0 <= k < 5 ==> '\t' !in parts[k]
    requires line == Join(parts, '\t')
    requires |parts[0]| > 0 && parts[0][0] != '#' && !IsWhiteSpace(parts[0][0]) && parts[0] != "rsid"
    ensures var chr := if parts[1] == "23" then "X" else parts[1];
      ParseLine(Ancestry, kitNo, line) ==
        if Excluded(chr) then Filtered else Emitted(Row(kitNo, parts[0], chr, parts[2], parts[3] + parts[4]))
  {
    SplitJoin(parts, '\t');
    assert line[0] == parts[0][0];
    FirstFieldNotPrefix(parts, '\t', "rsid");
    assert "rsid" + ['\t'] == "rsid\t";
    AncestryRow(kitNo, line);
  }

  lemma AncestryHeaderStart()
    ensures StartsWith(Header(Ancestry), "rsid\t")
  {
    var h := Header(Ancestry);
    assert h[0] == 'r' && h[1] == 's' && h[2] == 'i' && h[3] == 'd' && h[4] == '\t';
    assert h[..5] == "rsid\t";
  }

  lemma AncestryLine0(kitNo: string)
    ensures ParseLine(Ancestry, kitNo, AncestryFile[0]) == Skipped
  {
    AncestryHeaderStart();
    SkippedIff(Ancestry, kitNo, AncestryFile[0]);
  }

  lemma AncestryLine1(kitNo: string)
    ensures ParseLine(Ancestry, kitNo, AncestryFile[1]) == Emitted(Row(kitNo, "rs9", "X", "50", "AT"))
  {
    var parts := ["rs9", "23", "50", "A", "T"];
    assert parts[0][0] == 'r' && parts[1] == "23";
    assert !Excluded("X") && parts[3] + parts[4] == "AT";
    AncestryDataLine(kitNo, AncestryFile[1], parts);
  }

  lemma CollectSkipEmit(r: Row)
    ensures Collect([Skipped, Emitted(r)]) == Some([r])
  {
    var s1: seq<LineResult> := [Emitted(r)];
    assert s1[1..] == [] && [r] + [] == [r];
    assert Collect(s1) == Some([r]);
    var s0 := [Skipped] + s1;
    assert s0[1..] == s1 && s0 == [Skipped, Emitted(r)];
  }

  /** Chromosome 23 is stored as X and the alleles are joined in file order. */
  lemma AncestryExample(kitNo: string)
    ensures DataTable(AncestryFile, kitNo) == [Row(kitNo, "rs9", "X", "50", "AT")]
  {
    AncestryFileDetected();
    AncestryLine0(kitNo);
    AncestryLine1(kitNo);
    var r := Row(kitNo, "rs9", "X", "50", "AT");
    ResultsOfTwo(Ancestry, kitNo, AncestryFile);
    CollectSkipEmit(r);
  }

  lemma ResultsOfTwo(fmt: Format, kitNo: string, lines: seq<string>)
    requires |lines| == 2
    ensures Results(fmt, kitNo, lines) == [ParseLine(fmt, kitNo, lines[0]), ParseLine(fmt, kitNo, lines[1])]
  {
    ResultsCons(fmt, kitNo, lines);
    ResultsCons(fmt, kitNo, lines[1..]);
    assert lines[1..][1..] == [] && lines[1..][0] == lines[1];
    assert Results(fmt, kitNo, lines[1..][1..]) == [];
  }

  // ----- FTDNA data lines -----

  lemma FtdnaDataLine(kitNo: string, line: string, parts: seq<string>)
    requires |parts| == 4 && forall k :: 0 <= k < 4 ==> ',' !in parts[k]
    requires line == Join(parts, ',') && '"' !in line
    requires |parts[0]| > 0 && parts[0][0] != 'R' && !IsWhiteSpace(parts[0][0])
    ensures ParseLine(FTDNA, kitNo, line) ==
      if Excluded(parts[1]) then Filtered else Emitted(Row(kitNo, parts[0], parts[1], parts[2], parts[3]))
  {
    RemoveAllAbsent(line, '"');
    SplitJoin(parts, ',');
    assert line[0] == parts[0][0];
    FtdnaRow(kitNo, line);
  }

  /** A line whose length is that of no header is no header. */
  lemma NotAHeader(line: string)
    requires |line| != 31 && |line| != 35 && |line| != 40 && |line| != 50 && |line| != 23
    ensures HeaderFormat(line).None?
  {
    HeaderLengths();
  }

  /** A line of four comma-free, tab-free fields that is no header is FTDNA. */
  lemma FourCommaFieldsAreFtdna(line: string, parts: seq<string>)
    requires |parts| == 4 && forall k :: 0 <= k < 4 ==> ',' !in parts[k] && '\t' !in parts[k]
    requires line == Join(parts, ',')
    requires HeaderFormat(line).None?
    ensures ClassifyLine(line) == Some(FTDNA)
  {
    SplitJoin(parts, ',');
    JoinFree(parts, ',', '\t');
    SplitPiece(line, '\t');
  }

  // ----- a Geno2 file without its header -----

  const HeaderlessGeno2File: seq<string> := ["rs1,1,A,G"]

  lemma HeaderlessGeno2Classified()
    ensures ClassifyLine(HeaderlessGeno2File[0]) == Some(FTDNA)
  {
    NotAHeader(HeaderlessGeno2File[0]);
    FourCommaFieldsAreFtdna(HeaderlessGeno2File[0], ["rs1", "1", "A", "G"]);
  }

  lemma HeaderlessGeno2Detected()
    ensures Detect(HeaderlessGeno2File) == Some(FTDNA)
  {
    HeaderlessGeno2Classified();
    DetectIsFirstMatch(HeaderlessGeno2File, 0);
  }

  lemma HeaderlessGeno2Parsed(kitNo: string)
    ensures ParseLine(FTDNA, kitNo, HeaderlessGeno2File[0]) == Emitted(Row(kitNo, "rs1", "1", "A", "G"))
  {
    FtdnaDataLine(kitNo, HeaderlessGeno2File[0], ["rs1", "1", "A", "G"]);
  }

  /** A one-line file whose line gives a row. */
  lemma OneRowTable(lines: seq<string>, kitNo: string, fmt: Format, r: Row)
    requires |lines| == 1 && Detect(lines) == Some(fmt)
    requires ParseLine(fmt, kitNo, lines[0]) == Emitted(r)
    ensures DataTable(lines, kitNo) == [r]
  {
    ResultsOfOne(fmt, kitNo, lines);
    CollectEmit(r);
  }

  lemma ResultsOfOne(fmt: Format, kitNo: string, lines: seq<string>)
    requires |lines| == 1
    ensures Results(fmt, kitNo, lines) == [ParseLine(fmt, kitNo, lines[0])]
  {
    ResultsCons(fmt, kitNo, lines);
    assert Results(fmt, kitNo, lines[1..]) == [];
  }

  lemma CollectEmit(r: Row)
    ensures Collect([Emitted(r)]) == Some([r])
  {
    var s: seq<LineResult> := [Emitted(r)];
    assert s[1..] == [] && [r] + [] == [r];
  }

  /** A Geno2 line without the Geno2 header is read as FTDNA: its two
      alleles end up as position and genotype. */
  lemma HeaderlessGeno2Example(kitNo: string)
    ensures Detect(HeaderlessGeno2File) == Some(FTDNA)
    ensures DataTable(HeaderlessGeno2File, kitNo) == [Row(kitNo, "rs1", "1", "A", "G")]
  {
    HeaderlessGeno2Detected();
    HeaderlessGeno2Parsed(kitNo);
    OneRowTable(HeaderlessGeno2File, kitNo, FTDNA, Row(kitNo, "rs1", "1", "A", "G"));
  }

  // ----- a short line -----

  const ShortLineFile: seq<string> := [Header(TwentyThreeAndMe), Join(["rs1", "1", "100", "AA"], '\t'), Join(["rs2", "1"], '\t')]

  /** A 23andMe data line of fewer than four fields. */
  lemma TwentyThreeAndMeShortLine(kitNo: string, line: string, parts: seq<string>)
    requires 0 < |parts| < 4 && forall k :: 0 <= k < |parts| ==> '\t' !in parts[k]
    requires line == Join(parts, '\t')
    requires |parts[0]| > 0 && parts[0][0] != '#' && !IsWhiteSpace(parts[0][0])
    ensures ParseLine(TwentyThreeAndMe, kitNo, line) == Malformed
  {
    SplitJoin(parts, '\t');
    if |parts| > 1 {
      assert line == parts[0] + ['\t'] + Join(parts[1..], '\t');
    }
    assert line[0] == parts[0][0];
    MalformedIff(TwentyThreeAndMe, kitNo, line);
  }

  lemma ShortLineMalformed(kitNo: string)
    ensures ParseLine(TwentyThreeAndMe, kitNo, ShortLineFile[2]) == Malformed
  {
    TwentyThreeAndMeShortLine(kitNo, ShortLineFile[2], ["rs2", "1"]);
  }

  lemma ShortLineFileDetected()
    ensures Detect(ShortLineFile) == Some(TwentyThreeAndMe)
  {
    HeaderClassified(TwentyThreeAndMe);
    DetectIsFirstMatch(ShortLineFile, 0);
  }

  /** A good first data line does not survive a short second one: the table is empty. */
  lemma ShortLineExample(kitNo: string)
    ensures DataTable(ShortLineFile, kitNo) == []
  {
    ShortLineFileDetected();
    ShortLineMalformed(kitNo);
    MalformedLineNoRows(ShortLineFile, kitNo, TwentyThreeAndMe, 2);
  }

  // ----- a quoted FTDNA header -----

  /** The FTDNA header with its fields quoted is not skipped, as the `RSID`
      test sees the opening quote: it is stored as a row of column names. */
  lemma QuotedFtdnaHeader(kitNo: string)
    ensures ParseLine(FTDNA, kitNo, Join([Quoted("RSID"), Quoted("CHROMOSOME"), Quoted("POSITION"), Quoted("RESULT")], ','))
      == Emitted(Row(kitNo, "RSID", "CHROMOSOME", "POSITION", "RESULT"))
  {
    FtdnaQuotedRow(kitNo, "RSID", "CHROMOSOME", "POSITION", "RESULT");
  }

  // ----- an empty rsid -----

  lemma EmptyFirstFtdnaField(kitNo: string, line: string, parts: seq<string>)
    requires |parts| == 4 && forall k :: 0 <= k < 4 ==> ',' !in parts[k] && '"' !in parts[k]
    requires line == Join(parts, ',') && parts[0] == ""
    ensures ParseLine(FTDNA, kitNo, line) ==
      if Excluded(parts[1]) then Filtered else Emitted(Row(kitNo, "", parts[1], parts[2], parts[3]))
  {
    assert line == parts[0] + [','] + Join(parts[1..], ',');
    assert line[0] == ',';
    JoinFree(parts, ',', '"');
    RemoveAllAbsent(line, '"');
    SplitJoin(parts, ',');
    FtdnaRow(kitNo, line);
  }

  /** Nothing requires a non-empty marker name: an FTDNA line with an empty
      first field is stored with an empty rsid. */
  lemma EmptyRsid(kitNo: string)
    ensures ParseLine(FTDNA, kitNo, ",1,100,AA") == Emitted(Row(kitNo, "", "1", "100", "AA"))
  {
    EmptyFirstFtdnaField(kitNo, ",1,100,AA", ["", "1", "100", "AA"]);
  }
}
