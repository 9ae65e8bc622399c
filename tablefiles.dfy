/** The format decisions of `file2df` and `df2file` (utils.py): which
    reader loads a file and which writer saves a table, chosen from the
    text after the last dot of the file name. The readers and writers
    themselves belong to pandas and are named here, not modelled. */
module TableFiles {
  import opened Wrappers
  import opened PyText

  /** The closed set of table formats both functions accept. */
  datatype Format = Txt | Csv | Xls | Xlsx

  /** The suffix that names each format. */
  function SuffixOf(f: Format): string {
    match f
    case Txt => "txt"
    case Csv => "csv"
    case Xls => "xls"
    case Xlsx => "xlsx"
  }

  /** Membership test of `suffix in ('txt', 'csv', 'xls', 'xlsx')`: exact,
      case-sensitive comparison with the four names. */
  function ParseFormat(suffix: string): (r: Option<Format>)
    ensures r.Some? ==> SuffixOf(r.value) == suffix
    ensures r.None? ==> forall f: Format :: SuffixOf(f) != suffix
  {
    if suffix == "txt" then Some(Txt)
    else if suffix == "csv" then Some(Csv)
    else if suffix == "xls" then Some(Xls)
    else if suffix == "xlsx" then Some(Xlsx)
    else None
  }

  /** The failures the two functions can raise. */
  datatype FileError =
    | UnsupportedFormat              // the suffix assertion
    | NotATable                      // the `isinstance(df, pd.DataFrame)` assertion
    | InvalidSheetName(name: string) // `xlsxwriter` refusing the worksheet name

  /** The characters `xlsxwriter` refuses in a worksheet name. */
  const SheetNameForbidden: set<char> := {'[', ']', ':', '*', '?', '/', '\\'}

  /** The longest worksheet name `xlsxwriter` accepts. */
  const MaxSheetName: nat := 31

  /** A worksheet name `xlsxwriter` accepts: at most 31 characters, none of
      them forbidden. */
  predicate ValidSheetName(name: string) {
    |name| <= MaxSheetName && forall i :: 0 <= i < |name| ==> name[i] !in SheetNameForbidden
  }

  /** The pandas reader `file2df` calls. */
  datatype Reader =
    | ReadTable  // `pd.read_table`, tab-delimited text
    | ReadCsv    // `pd.read_csv`
    | ReadExcel  // `pd.read_excel`

  /** `file2df(fname)`: the reader chosen for `fname`, or the assertion
      failure when its last dot-segment is not one of the four formats.
      `txt` is read with `read_table`, `csv` with `read_csv`, and both
      Excel formats with `read_excel`. */
  function File2Df(fname: string): (r: Result<Reader, FileError>)
    ensures r.Err? <==> ParseFormat(LastSegment(fname)).None?
    ensures r.Err? ==> r.error == UnsupportedFormat
    ensures r == Ok(ReadTable) <==> LastSegment(fname) == "txt"
    ensures r == Ok(ReadCsv) <==> LastSegment(fname) == "csv"
    ensures r == Ok(ReadExcel) <==> LastSegment(fname) in {"xls", "xlsx"}
  {
    var suffix := LastSegment(fname);
    if ParseFormat(suffix).None? then Err(UnsupportedFormat)
    else if suffix == "txt" then Ok(ReadTable)
    else if suffix == "csv" then Ok(ReadCsv)
    else Ok(ReadExcel)
  }

  /** A name without a dot is accepted by `file2df` only if the whole name
      is one of the four format words. */
  lemma File2DfDotless(fname: string)
    requires '.' !in fname
    ensures File2Df(fname).Ok? <==> fname in {"txt", "csv", "xls", "xlsx"}
  {
    assert LastSegment(fname) == fname;
  }

  /** The suffix test is case-sensitive: "data.CSV" is refused. */
  lemma File2DfCaseSensitive()
    ensures File2Df("data.CSV") == Err(UnsupportedFormat)
    ensures File2Df("data.csv") == Ok(ReadCsv)
  {
    assert "data" + "." + "CSV" == "data.CSV";
    assert "data" + "." + "csv" == "data.csv";
    SegmentAfterDot("data", "CSV");
    SegmentAfterDot("data", "csv");
    assert "CSV" != "txt" && "CSV" != "csv" && "CSV" != "xls" && "CSV" != "xlsx";
  }

  /** The last segment of `stem.suffix` for dot-free `stem` and `suffix`. */
  lemma SegmentAfterDot(stem: string, suffix: string)
    requires '.' !in stem && '.' !in suffix
    ensures LastSegment(stem + "." + suffix) == suffix
  {
    SplitAppend(stem, suffix);
    SplitDotFree(suffix);
  }

  /** The pandas writer `df2file` calls. */
  datatype Writer =
    | ToExcel(sheetName: string)   // `df.to_excel(..., sheet_name=...)`
    | ToDelimited(sep: char)       // `df.to_csv(..., sep=...)`

  /** What `df2file` does once its assertions pass: write one file (and
      return True), or write nothing and return False. */
  datatype SaveOutcome =
    | Wrote(path: string, writer: Writer)
    | Declined

  /** The Python value `df2file` returns on a given outcome. */
  function Returned(o: SaveOutcome): bool {
    o.Wrote?
  }

  /** `outpath = os.getcwd() if not outpath else outpath`: a missing or
      empty output directory means the working directory `cwd`. */
  function OutDir(outpath: Option<string>, cwd: string): (d: string)
    ensures outpath.None? || outpath.value == "" ==> d == cwd
    ensures outpath.Some? && outpath.value != "" ==> d == outpath.value
  {
    if outpath.None? || outpath.value == "" then cwd else outpath.value
  }

  /** The suffix `df2file` resolves: `xlsx` for a name with no dot,
      otherwise the text after the last dot. */
  function SaveSuffix(fname: string): (suffix: string)
    ensures '.' !in suffix
    ensures '.' !in fname ==> suffix == "xlsx"
    ensures '.' in fname ==> suffix == LastSegment(fname)
  {
    SplitSingle(fname);
    if |Split(fname)| == 1 then "xlsx" else LastSegment(fname)
  }

  /** The name `df2file` writes: the name itself when it has a dot,
      otherwise the name with the resolved suffix appended. Either way its
      own last dot-segment is the resolved suffix, so reading it back with
      `file2df` sees the format it was written in. */
  function OutName(fname: string): (out: string)
    ensures '.' in out
    ensures LastSegment(out) == SaveSuffix(fname)
    ensures '.' in fname ==> out == fname
    ensures '.' !in fname ==> out == fname + ".xlsx"
  {
    SplitSingle(fname);
    if |Split(fname)| == 1 then
      var out := fname + "." + SaveSuffix(fname);
      assert out[|fname|] == '.';
      SegmentAfterDot(fname, "xlsx");
      out
    else fname
  }

  /** `df2file(df, fname, outpath)`, with the table reduced to whether it is
      a DataFrame and the working directory passed in as `cwd`. A non-table
      fails before the name is examined; a name whose resolved suffix is not
      a format fails; an `xlsx` file whose name is not a valid worksheet
      name fails in the writer, which takes the output name as the sheet
      name; otherwise a file is written (and True returned) exactly when
      the suffix is not `xls`, at the output directory joined with the
      output name, by the writer the suffix calls for. */
  function Df2File(isTable: bool, fname: string, outpath: Option<string>, cwd: string): (r: Result<SaveOutcome, FileError>)
    ensures !isTable ==> r == Err(NotATable)
    ensures isTable ==> (r.Err? <==>
      ParseFormat(SaveSuffix(fname)).None? || (SaveSuffix(fname) == "xlsx" && !ValidSheetName(OutName(fname))))
    ensures isTable && r.Err? ==>
      r.error == (if ParseFormat(SaveSuffix(fname)).None? then UnsupportedFormat else InvalidSheetName(OutName(fname)))
    ensures r.Ok? ==> (Returned(r.value) <==> SaveSuffix(fname) != "xls")
    ensures r.Ok? && r.value.Wrote? ==>
      r.value.path == PathJoin(OutDir(outpath, cwd), OutName(fname)) && EndsWith(r.value.path, OutName(fname))
    ensures r.Ok? && r.value.Wrote? ==>
      (r.value.writer == ToExcel(OutName(fname)) <==> SaveSuffix(fname) == "xlsx")
    ensures r.Ok? && r.value.Wrote? && r.value.writer.ToDelimited? ==>
      r.value.writer.sep == (if SaveSuffix(fname) == "csv" then ',' else '\t')
  {
    var dir := OutDir(outpath, cwd);
    if !isTable then Err(NotATable)
    else
      var suffix := SaveSuffix(fname);
      if ParseFormat(suffix).None? then Err(UnsupportedFormat)
      else
        var outname := OutName(fname);
        var target := PathJoin(dir, outname);
        if suffix == "xlsx" then
          if ValidSheetName(outname) then Ok(Wrote(target, ToExcel(outname)))
          else Err(InvalidSheetName(outname))
        else if suffix == "csv" then Ok(Wrote(target, ToDelimited(',')))
        else if suffix == "txt" then Ok(Wrote(target, ToDelimited('\t')))
        else Ok(Declined)
  }

  /** A name without a dot is saved as an `.xlsx` file named after it, in a
      sheet of the same name, when that name suits a worksheet; otherwise
      the writer refuses it. */
  lemma Df2FileDotless(fname: string, outpath: Option<string>, cwd: string)
    requires '.' !in fname
    ensures var out := fname + ".xlsx";
      var r := Df2File(true, fname, outpath, cwd);
      && (ValidSheetName(out) ==> r == Ok(Wrote(PathJoin(OutDir(outpath, cwd), out), ToExcel(out))))
      && (!ValidSheetName(out) ==> r == Err(InvalidSheetName(out)))
  {
    var out := fname + ".xlsx";
    assert SaveSuffix(fname) == "xlsx";
    assert OutName(fname) == out;
    var r := Df2File(true, fname, outpath, cwd);
    assert ParseFormat("xlsx") == Some(Xlsx);
    if ValidSheetName(out) {
      assert r.Ok? && r.value.Wrote?;
      assert r.value.writer == ToExcel(out);
    }
  }

  /** A name with `.xlsx` added suits a worksheet exactly when the name
      has at most 26 characters and none the writer refuses. */
  lemma SheetNameWithSuffix(fname: string)
    ensures ValidSheetName(fname + ".xlsx") <==>
      |fname| <= MaxSheetName - 5 && forall i :: 0 <= i < |fname| ==> fname[i] !in SheetNameForbidden
  {
    var out := fname + ".xlsx";
    assert forall i :: 0 <= i < |fname| ==> out[i] == fname[i];
    forall i | |fname| <= i < |out|
      ensures out[i] !in SheetNameForbidden
    {
      assert out[i] == ".xlsx"[i - |fname|];
    }
  }

  /** A name without a dot is saved exactly when it has at most 26
      characters (its sheet name gains `.xlsx`) and none the writer
      refuses. */
  lemma Df2FileDotlessSaved(fname: string, outpath: Option<string>, cwd: string)
    requires '.' !in fname
    ensures Df2File(true, fname, outpath, cwd).Ok? <==>
      |fname| <= MaxSheetName - 5 && forall i :: 0 <= i < |fname| ==> fname[i] !in SheetNameForbidden
  {
    Df2FileDotless(fname, outpath, cwd);
    SheetNameWithSuffix(fname);
  }

  /** A name without a dot of more than 26 characters, such as
      `quarterly_sales_report_2020_q1`, is too long for a worksheet once
      `.xlsx` is added, so `df2file` fails on it. */
  lemma Df2FileLongName(fname: string, outpath: Option<string>, cwd: string)
    requires '.' !in fname && |fname| > MaxSheetName - 5
    ensures Df2File(true, fname, outpath, cwd) == Err(InvalidSheetName(fname + ".xlsx"))
  {
    Df2FileDotless(fname, outpath, cwd);
    SheetNameWithSuffix(fname);
  }

  /** A name with a dot keeps its name unchanged; its last segment decides:
      an unknown suffix fails before anything is written; `xlsx` writes when
      the name suits a worksheet and fails in the writer otherwise; `txt`
      and `csv` write (and return True); and `xls` passes the check but
      writes nothing and returns False. */
  lemma Df2FileDotted(fname: string, outpath: Option<string>, cwd: string)
    requires '.' in fname
    ensures var r := Df2File(true, fname, outpath, cwd);
      var suffix := LastSegment(fname);
      var target := PathJoin(OutDir(outpath, cwd), fname);
      && (suffix !in {"txt", "csv", "xls", "xlsx"} ==> r == Err(UnsupportedFormat))
      && (suffix == "xlsx" && ValidSheetName(fname) ==> r == Ok(Wrote(target, ToExcel(fname))))
      && (suffix == "xlsx" && !ValidSheetName(fname) ==> r == Err(InvalidSheetName(fname)))
      && (suffix == "csv" ==> r == Ok(Wrote(target, ToDelimited(','))))
      && (suffix == "txt" ==> r == Ok(Wrote(target, ToDelimited('\t'))))
      && (suffix == "xls" ==> r == Ok(Declined))
  {
    assert SaveSuffix(fname) == LastSegment(fname);
    assert OutName(fname) == fname;
  }
}
