# GGK console importer: format detection and normalisation

This project models the core of the Genetic Genealogy Kit console importer
(`Program.cs`). The importer reads a raw autosomal DNA export, works out which
vendor wrote it (FTDNA, 23andMe, Ancestry, deCODEme or Geno2), and turns each
data line into one row `(kit_no, rsid, chromosome, position, genotype)`. Those
rows make up the table that goes to the database.

The model is made of five modules:

- `Text`: the .NET string operations the importer relies on, written out:
  - `Split(char)`, which keeps empty pieces;
  - ordinal `StartsWith`;
  - `Trim` over the `Char.IsWhiteSpace` set;
  - `Replace("\"", "")`.
- `Detection`: `detectDNAFileType`.
  - The method `DetectDNAFileType` keeps the source's loop, counter and early
    returns.
  - It is proved equal to `Detect`, a scan over one verdict per line: exact
    header, else sniffing by field count.
  - The lemmas state what that scan means.
- `Autosomal`: the `foreach` of `getAutosomalDNAList`.
  - `ProcessLine` is the loop body for one line, with the `continue`s and the
    out-of-range `data[k]`.
  - `ParseAll` is the loop, proved against `ParseLines`.
  - `GetAutosomalDNAList` chains detection and the loop.
- `Import`: `getDataTable`.
  - The exception a short line raises inside `getAutosomalDNAList` is caught
    there, and the table stays empty.
- `Examples`: concrete inputs.
  - Whole files taken through detection and normalisation: a 23andMe file, an
    Ancestry file, a Geno2 file without its header, and a file with a short
    line.
  - Single FTDNA lines taken through the loop body: a quoted header line and a
    line with an empty rsid.

How the source's values are represented:

- The format code becomes `Option<Format>`:
  - `0..4` are the five layouts, in the order of the `AUTOSOMAL_*` constants;
  - `-1` is `None`.
- The per-line `IndexOutOfRangeException` becomes the `Malformed` line result.
- A parse that raised becomes `None`.
- The file is given as its sequence of lines, the result of `File.ReadAllLines`.

Two behaviours of the code worth knowing:

- Detection examines lines 0 to 101, which is 102 lines, because the counter
  test `count > 100` comes after the rules have been tried on the current line
  (`LastScannedIndex`, `DetectNoneIff`, `DetectScanBound`).
- Nothing checks that the rsid is non-empty. A line such as `,1,100,AA` in an
  FTDNA file yields a row with an empty rsid (`Examples.EmptyRsid`).

`Text.StartsWith`, `Text.IsBlank` and `Text.Trim` are plain definitions with no
contract of their own. `StartsWith` is the ordinal prefix test, and `IsBlank`
says that every character is white space. The meaning of `Trim` is pinned down
by the contracts of `TrimStart` and `TrimEnd` and by `TrimEmptyIffBlank`.

## Model

| member | source | states |
|---|---|---|
| Detection.DetectDNAFileType | Program.cs:182-214 | The loop with its counter and early returns gives exactly `Detect(lines)`. That is the verdict of the first line, among lines 0..101, on which a header or sniffing rule fires. If no rule fires there, the result is `None`, the source's `-1`. |
| Detection.HeaderFormatIff | Program.cs:187-196 | A line is taken as the header of layout `f` exactly when it equals `f`'s header string. |
| Detection.HeaderClassified | Program.cs:187-196 | Each layout's header line is classified as that layout. |
| Detection.Geno2HeaderBeforeFallback | Program.cs:195-203 | By field count alone, the Geno2 header would be read as FTDNA; because the header test runs first, it is read as Geno2. |
| Detection.FallbackOrder | Program.cs:198-205 | The sniffing, stated as separator counts tried in order: 3 tabs gives 23andMe, 4 tabs Ancestry, 3 commas FTDNA, 5 commas deCODEme; otherwise no verdict. |
| Detection.Geno2OnlyByHeader | Program.cs:187-205 | Sniffing never yields Geno2. A line is classified Geno2 exactly when it is the Geno2 header. |
| Detection.DetectIsFirstMatch | Program.cs:184-212 | Suppose a rule fires on line `i`, with `i <= 101`, and on no earlier line. Then that line's verdict is the file's format. |
| Detection.DetectSomeIsFirstMatch | Program.cs:184-212 | A recognised format is always the verdict of such a first line within lines 0..101. |
| Detection.DetectNoneIff | Program.cs:184-213 | The format is unknown exactly when no rule fires on any of lines 0..101; this includes the empty file. |
| Detection.DetectScanBound | Program.cs:206-211 | Lines after index 101 never change the detected format. |
| Text.TrimStart | Program.cs:248 | The result is a suffix of the input that does not begin with white space, and what was dropped is all white space. |
| Text.TrimEnd | Program.cs:248 | The result is a prefix of the input that does not end with white space, and what was dropped is all white space. |
| Text.TrimEmptyIffBlank | Program.cs:248 | `line.Trim() == ""` holds exactly when every character of the line is white space. |
| Text.RemoveAll | Program.cs:251 | The result contains no quote character. |
| Text.RemoveAllKeeps | Program.cs:251 | Removing a character shortens the line by its number of occurrences and keeps every other character as often as it occurred. |
| Text.Split | Program.cs:252 | Splitting always yields at least one piece. |
| Text.SplitLength | Program.cs:198-205 | The number of pieces is the number of separators plus one; empty pieces are kept. |
| Text.JoinSplit | Program.cs:252 | Joining the pieces with the separator gives back the line. |
| Text.SplitJoin | Program.cs:252 | Splitting a join of separator-free fields gives back exactly those fields. |
| Autosomal.ProcessLine | Program.cs:243-325 | The body of the `foreach` for one line gives exactly `ParseLine`. The results are: `Skipped` at a `continue`, `Malformed` where `data[k]` is out of range, `Filtered` for a Y, MT or 0 chromosome, and otherwise the emitted row. |
| Autosomal.ParseAll | Program.cs:241-327 | The loop's result is `ParseLines`: the rows of the emitted lines in line order, or `None` once a line raised. |
| Autosomal.GetAutosomalDNAList | Program.cs:221-328 | An unknown format gives an empty list. A known format gives the loop's outcome under that one format. |
| Autosomal.SkipRules | Program.cs:244-308 | The lines each layout skips are exactly these: FTDNA skips lines starting `RSID`; 23andMe skips lines starting `#`; Ancestry skips lines starting `#` or `rsid\t`; Geno2 skips lines starting `SNP,`; deCODEme skips lines starting `Name,`. Every layout also skips lines made only of white space. |
| Autosomal.ShortLines | Program.cs:251-315 | A line that is not skipped raises exactly when it has too few separators. The minimum is 3 commas for FTDNA (quotes do not count) and Geno2, 3 tabs for 23andMe, 4 tabs for Ancestry, and 5 commas for deCODEme. |
| Autosomal.FtdnaRow | Program.cs:244-257 | An FTDNA line is emitted as fields 0..3 of the comma-split line with its quotes removed, unless the chromosome is filtered out. |
| Autosomal.FtdnaQuotedRow | Program.cs:246-256 | A quoted FTDNA line gives its four fields without the quotes. The `RSID` test sees the opening quote, so a quoted header line is not skipped. |
| Autosomal.TwentyThreeAndMeRow | Program.cs:258-270 | A 23andMe line is emitted as tab fields 0..3, unless the chromosome is filtered out. |
| Autosomal.AncestryRow | Program.cs:271-288 | An Ancestry line has chromosome `23` renamed `X` and no other chromosome changed. Its genotype is fields 3 and 4 joined in file order. |
| Autosomal.GetPosition | Program.cs:216-219 | The stub answers `"0"` for every marker. |
| Autosomal.Geno2Row | Program.cs:289-302 | A Geno2 line has position `"0"`, the value of `getPosition` (lines 216-219). Its genotype is fields 2 and 3 joined. |
| Autosomal.DecodeMeRow | Program.cs:303-316 | A deCODEme line takes fields 0, 2, 3 and 5; fields 1 and 4 are not read. |
| Autosomal.EmittedRowShape | Program.cs:317-320 | Every emitted row has these properties: it carries the kit number; its chromosome is not Y, MT or 0; no Ancestry row has chromosome `23`; every Geno2 row has position `0`; no FTDNA field contains a quote. |
| Autosomal.ParsedRowsShape | Program.cs:241-326 | Every row of a successful parse has these properties: it carries the kit number; its chromosome is not Y, MT or 0; no Ancestry row has chromosome `23`; every Geno2 row has position `0`; no FTDNA field contains a quote. |
| Autosomal.ParseLinesAppend | Program.cs:241-326 | Parsing `a + b` is parsing `a` and then `b`. Rows keep the order of their lines, and every line is handled on its own. |
| Autosomal.ParseLinesFailsIff | Program.cs:241-326 | The parse fails exactly when some line, anywhere in the file, is too short for its layout. |
| Autosomal.ParseLinesRows | Program.cs:241-327 | A successful parse has at most one row per line. Every row comes from an emitted line, and every emitted line's row is present. |
| Import.GetDataTable | Program.cs:154-180 | The table is `DataTable(lines, kitNo)`: the list's rows in order, or no rows when the parse raised. |
| Import.AddRows | Program.cs:168-171 | Adding the rows one by one yields them all, in order. |
| Import.UnknownFormatNoRows | Program.cs:227-233 | When no rule fires on lines 0..101, the table is empty. |
| Import.MalformedLineNoRows | Program.cs:158-178 | One short line, anywhere in the file, empties the whole table: there is no partial import. |
| Import.ParsedTable | Program.cs:166-171 | With a known format and no short line, the table is the parse's rows. It has at most one row per line, and each row carries the kit number, a stored chromosome and the line it came from. |
| Import.TableShape | Program.cs:154-180 | For any input, no row has chromosome Y, MT or 0 or another kit's number, and there are never more rows than lines. |
| Examples.TwentyThreeAndMeExample | Program.cs:258-320 | A 23andMe file: the header is skipped, the Y marker is dropped, and the rows for `rs1` and `rs3` remain, in order. |
| Examples.AncestryExample | Program.cs:271-288 | An Ancestry file: the header is skipped, and the single row has chromosome `X` and genotype `AT`. |
| Examples.HeaderlessGeno2Example | Program.cs:198-256 | A Geno2 file missing its header is read as FTDNA: its two allele fields end up as position and genotype. |
| Examples.ShortLineExample | Program.cs:158-178 | A good data line followed by a two-field line gives an empty table. |
| Examples.QuotedFtdnaHeader | Program.cs:246-252 | The quoted FTDNA header line is not skipped: the loop body yields a row of column names for it. |
| Examples.EmptyRsid | Program.cs:251-256 | An FTDNA line with an empty first field yields a row with an empty rsid. |

## Left out

- `Main`, the command-line checks and every `Console.WriteLine`: they are I/O, and outside detection and normalisation.
- `File.Exists` and `File.ReadAllLines`: the file arrives as its sequence of lines, and reading errors are not modelled.
- `getDBConnection`, `queryDatabase`, `importOpenSNPFile` and the SQLite transaction: storage is a collaborator outside this model.
- The `DataTable` object itself: its five columns are modelled as the fields of `Row`, and the table as a sequence of rows.
- Culture-sensitive prefix tests: `StartsWith` is modelled as an ordinal comparison. The source's `StartsWith(string)` uses the current culture, which can ignore some zero-width characters. That behaviour is not represented.
- Culture and Unicode-version details of white space: `Trim` uses the fixed set of characters that `Char.IsWhiteSpace` accepts. Culture and Unicode version differences are not represented.
- Exceptions other than the out-of-range index of a short line, such as out-of-memory, are not modelled.
- Rows gathered before an exception: the loop's outcome is the rows once it ends. The source's `ArrayList` holds the rows added before the exception, but the caller never sees them, so the model does not keep them.
