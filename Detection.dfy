/**
 * Format detection (`detectDNAFileType`): the first line, among the first
 * 102, that one of the rules fires on decides the vendor layout.
 */
module Detection {
  import opened Wrappers
  import opened Text

  /** The five vendor layouts; the source's constants AUTOSOMAL_FTDNA (0),
      AUTOSOMAL_23ANDME (1), AUTOSOMAL_ANCESTRY (2), AUTOSOMAL_DECODEME (3)
      and AUTOSOMAL_GENO2 (4). The source's -1 is `None`. */
  datatype Format = FTDNA | TwentyThreeAndMe | Ancestry | DecodeMe | Geno2

  /** The exact header line of each layout. */
  function Header(f: Format): string {
    match f
    case FTDNA => "RSID,CHROMOSOME,POSITION,RESULT"
    case TwentyThreeAndMe => "# rsid\tchromosome\tposition\tgenotype"
    case Ancestry => "rsid\tchromosome\tposition\tallele1\tallele2"
    case DecodeMe => "Name,Variation,Chromosome,Position,Strand,YourCode"
    case Geno2 => "SNP,Chr,Allele1,Allele2"
  }

  /** The scan counter starts at 0 and the loop leaves once it exceeds 100,
      after the rules ran, so the line at this index is the last one examined. */
  const LastScannedIndex: nat := 101

  /** The exact header comparisons, in the source's order. */
  function HeaderFormat(line: string): Option<Format> {
    if line == Header(FTDNA) then Some(FTDNA)
    else if line == Header(TwentyThreeAndMe) then Some(TwentyThreeAndMe)
    else if line == Header(Ancestry) then Some(Ancestry)
    else if line == Header(DecodeMe) then Some(DecodeMe)
    else if line == Header(Geno2) then Some(Geno2)
    else None
  }

  /** The field-count sniffing, in the source's order. */
  function Fallback(line: string): Option<Format> {
    if |Split(line, '\t')| == 4 then Some(TwentyThreeAndMe)
    else if |Split(line, '\t')| == 5 then Some(Ancestry)
    else if |Split(line, ',')| == 4 then Some(FTDNA)
    else if |Split(line, ',')| == 6 then Some(DecodeMe)
    else None
  }

  /** All rules applied to one line: the headers first, then the sniffing. */
  function ClassifyLine(line: string): Option<Format> {
    var h := HeaderFormat(line);
    if h.Some? then h else Fallback(line)
  }

  /** The verdict of the rules on every line of the file. */
  function Classes(lines: seq<string>): (cs: seq<Option<Format>>)
    ensures |cs| == |lines|
  {
    seq(|lines|, j requires 0 <= j < |lines| => ClassifyLine(lines[j]))
  }

  /** The scan from index `i` on, over the per-line verdicts. */
  function Scan(cs: seq<Option<Format>>, i: nat): Option<Format>
    decreases |cs| - i
  {
    if i >= |cs| then None
    else if cs[i].Some? then cs[i]
    else if i >= LastScannedIndex then None
    else Scan(cs, i + 1)
  }

  /** The format of a whole file, `None` for the source's -1. */
  function Detect(lines: seq<string>): Option<Format> {
    Scan(Classes(lines), 0)
  }

  /** `detectDNAFileType`: the `foreach` with its counter, early returns and `break`. */
  method DetectDNAFileType(lines: seq<string>) returns (t: Option<Format>)
    ensures t == Detect(lines)
  {
    var count := 0;
    for i := 0 to |lines|
      invariant count == i
      invariant Detect(lines) == Scan(Classes(lines), i)
    {
      var line := lines[i];
      if line == Header(FTDNA) { return Some(FTDNA); }
      if line == Header(TwentyThreeAndMe) { return Some(TwentyThreeAndMe); }
      if line == Header(Ancestry) { return Some(Ancestry); }
      if line == Header(DecodeMe) { return Some(DecodeMe); }
      if line == Header(Geno2) { return Some(Geno2); }
      if |Split(line, '\t')| == 4 { return Some(TwentyThreeAndMe); }
      if |Split(line, '\t')| == 5 { return Some(Ancestry); }
      if |Split(line, ',')| == 4 { return Some(FTDNA); }
      if |Split(line, ',')| == 6 { return Some(DecodeMe); }
      if count > 100 {
        break;
      }
      count := count + 1;
    }
    return None;
  }

  // ----- the exact headers -----

  /** The header lengths differ, which keeps the five comparisons apart. */
  lemma HeaderLengths()
    ensures |Header(FTDNA)| == 31 && |Header(TwentyThreeAndMe)| == 35
    ensures |Header(Ancestry)| == 40 && |Header(DecodeMe)| == 50 && |Header(Geno2)| == 23
  {
  }

  /** A line is recognised as the header of `f` exactly when it is `f`'s header string. */
  lemma HeaderFormatIff(line: string, f: Format)
    ensures HeaderFormat(line) == Some(f) <==> line == Header(f)
  {
    HeaderLengths();
  }

  /** The header of every layout is classified as that layout. */
  lemma HeaderClassified(f: Format)
    ensures ClassifyLine(Header(f)) == Some(f)
  {
    HeaderFormatIff(Header(f), f);
  }

  lemma Geno2HeaderFields()
    ensures |Split(Header(Geno2), ',')| == 4
    ensures |Split(Header(Geno2), '\t')| == 1
  {
    Geno2HeaderIsJoin();
    SplitJoin(["SNP", "Chr", "Allele1", "Allele2"], ',');
    Geno2HeaderHasNoTab();
  }

  lemma Geno2HeaderIsJoin()
    ensures Header(Geno2) == Join(["SNP", "Chr", "Allele1", "Allele2"], ',')
  {
  }

  lemma Geno2HeaderHasNoTab()
    ensures |Split(Header(Geno2), '\t')| == 1
  {
    SplitPiece(Header(Geno2), '\t');
  }

  /** The Geno2 header has four comma fields, so the sniffing alone would
      read it as FTDNA: only the header test, tried first, finds Geno2. */
  lemma Geno2HeaderBeforeFallback()
    ensures Fallback(Header(Geno2)) == Some(FTDNA)
    ensures ClassifyLine(Header(Geno2)) == Some(Geno2)
  {
    Geno2HeaderFields();
    HeaderClassified(Geno2);
  }

  // ----- the sniffing -----

  /** The sniffing in terms of separator counts: 3 tabs, 4 tabs, 3 commas, 5 commas, in that order. */
  lemma FallbackOrder(line: string)
    ensures Fallback(line) ==
      if multiset(line)['\t'] == 3 then Some(TwentyThreeAndMe)
      else if multiset(line)['\t'] == 4 then Some(Ancestry)
      else if multiset(line)[','] == 3 then Some(FTDNA)
      else if multiset(line)[','] == 5 then Some(DecodeMe)
      else None
  {
    SplitLength(line, '\t');
    SplitLength(line, ',');
  }

  /** Geno2 is found only from its exact header; the sniffing never answers Geno2. */
  lemma Geno2OnlyByHeader(line: string)
    ensures Fallback(line) != Some(Geno2)
    ensures ClassifyLine(line) == Some(Geno2) <==> line == Header(Geno2)
  {
    HeaderFormatIff(line, Geno2);
  }

  // ----- the scan -----

  /** Verdict `i` is the first one that recognises a format, and it lies inside the scan window. */
  ghost predicate FirstMatchAt(cs: seq<Option<Format>>, i: nat) {
    i < |cs| && i <= LastScannedIndex && cs[i].Some?
    && forall j :: 0 <= j < i ==> cs[j].None?
  }

  lemma {:induction false} ScanFirstMatch(cs: seq<Option<Format>>, k: nat, i: nat)
    requires k <= i && FirstMatchAt(cs, i)
    ensures Scan(cs, k) == cs[i]
    decreases i - k
  {
    if k < i {
      ScanFirstMatch(cs, k + 1, i);
    }
  }

  lemma {:induction false} ScanCases(cs: seq<Option<Format>>, k: nat)
    requires k <= LastScannedIndex
    requires forall j :: 0 <= j < k && j < |cs| ==> cs[j].None?
    ensures Scan(cs, k).Some? ==> exists i: nat :: FirstMatchAt(cs, i) && Scan(cs, k) == cs[i]
    ensures Scan(cs, k).None? <==> forall j :: k <= j < |cs| && j <= LastScannedIndex ==> cs[j].None?
    decreases |cs| - k
  {
    if k < |cs| {
      if cs[k].Some? {
        assert FirstMatchAt(cs, k);
      } else if k < LastScannedIndex {
        ScanCases(cs, k + 1);
      }
    }
  }

  lemma {:induction false} ScanWindow(cs: seq<Option<Format>>, n: nat, k: nat)
    requires n == if |cs| < LastScannedIndex + 1 then |cs| else LastScannedIndex + 1
    requires k <= LastScannedIndex
    ensures Scan(cs, k) == Scan(cs[..n], k)
    decreases |cs| - k
  {
    if k < |cs| && k < LastScannedIndex {
      assert cs[..n][k] == cs[k];
      ScanWindow(cs, n, k + 1);
    } else if k < |cs| {
      assert cs[..n][k] == cs[k];
    }
  }

  /** The first line, within lines 0..101, that a rule fires on decides the format. */
  lemma DetectIsFirstMatch(lines: seq<string>, i: nat)
    requires i < |lines| && i <= LastScannedIndex && ClassifyLine(lines[i]).Some?
    requires forall j :: 0 <= j < i ==> ClassifyLine(lines[j]).None?
    ensures Detect(lines) == ClassifyLine(lines[i])
  {
    var cs := Classes(lines);
    assert FirstMatchAt(cs, i);
    ScanFirstMatch(cs, 0, i);
  }

  /** A recognised format is the verdict on the first line, within lines 0..101,
      that a rule fires on. */
  lemma DetectSomeIsFirstMatch(lines: seq<string>)
    requires Detect(lines).Some?
    ensures exists i: nat :: i < |lines| && i <= LastScannedIndex && Detect(lines) == ClassifyLine(lines[i])
                            && forall j :: 0 <= j < i ==> ClassifyLine(lines[j]).None?
  {
    var cs := Classes(lines);
    ScanCases(cs, 0);
    var i: nat :| FirstMatchAt(cs, i) && Scan(cs, 0) == cs[i];
    assert forall j :: 0 <= j < i ==> cs[j] == ClassifyLine(lines[j]);
  }

  /** The format is unknown exactly when no rule fires on any of lines 0..101
      (an empty file included). */
  lemma DetectNoneIff(lines: seq<string>)
    ensures Detect(lines).None? <==>
      forall j :: 0 <= j < |lines| && j <= LastScannedIndex ==> ClassifyLine(lines[j]).None?
  {
    var cs := Classes(lines);
    ScanCases(cs, 0);
    assert forall j :: 0 <= j < |lines| ==> cs[j] == ClassifyLine(lines[j]);
  }

  /** Lines after index 101 never influence the result. */
  lemma DetectScanBound(lines: seq<string>)
    ensures Detect(lines) == Detect(lines[..if |lines| < LastScannedIndex + 1 then |lines| else LastScannedIndex + 1])
  {
    var n := if |lines| < LastScannedIndex + 1 then |lines| else LastScannedIndex + 1;
    ScanWindow(Classes(lines), n, 0);
    assert Classes(lines)[..n] == Classes(lines[..n]);
  }
}
