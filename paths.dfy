/** Where save_to_csv and save_pdf_file put things: the per-currency CSV
    path, the archived PDF's path and the repository link written into the
    PDF FILE column (sbi_forex_downloader.py, lines 153-154, 157, 166 and
    190-195). */
module Paths {
  import opened Text
  import opened Calendar

  const CsvDefaultDir := "csv_files"
  const PdfDefaultDir := "pdf_files"
  const CsvPrefix := "SBI_REFERENCE_RATES_"
  const CsvSuffix := ".csv"
  /** The repository whose pdf_files tree the PDF FILE links point into. */
  const RepoBlobRoot := "https://github.com/sahilgupta/sbi-fx-ratekeeper/blob/main/"

  /** os.path.join(a, b) on POSIX: an absolute b replaces a; otherwise one
      "/" is put between them unless a is empty or already ends in "/". */
  function PathJoin(a: string, b: string): (p: string)
    ensures b != [] && b[0] == '/' ==> p == b
    ensures (b == [] || b[0] != '/') && a != [] && a[|a| - 1] != '/' ==> p == a + "/" + b
    ensures (b == [] || b[0] != '/') && (a == [] || a[|a| - 1] == '/') ==> p == a + b
  {
    if b != [] && b[0] == '/' then b
    else if a == [] || a[|a| - 1] == '/' then a + b
    else a + "/" + b
  }

  /** `output_dir or fallback`: None and "" both select the fallback. */
  function DirOr(outputDir: string, fallback: string): (d: string)
    ensures outputDir == [] ==> d == fallback
    ensures outputDir != [] ==> d == outputDir
  {
    if outputDir == [] then fallback else outputDir
  }

  /** f"SBI_REFERENCE_RATES_{currency}.csv" */
  function CsvFileName(code: string): string {
    CsvPrefix + code + CsvSuffix
  }

  /** The file of one currency's series. */
  function CsvPath(outputDir: string, code: string): string {
    PathJoin(DirOr(outputDir, CsvDefaultDir), CsvFileName(code))
  }

  /** Every currency code has a file of its own in a given directory. */
  lemma CsvPathInjective(outputDir: string, a: string, b: string)
    ensures CsvPath(outputDir, a) == CsvPath(outputDir, b) <==> a == b
  {
    var dir := DirOr(outputDir, CsvDefaultDir);
    assert dir != [];
    assert CsvFileName(a)[0] == 'S' && CsvFileName(b)[0] == 'S';
    var base := if dir[|dir| - 1] == '/' then dir else dir + "/";
    assert CsvPath(outputDir, a) == base + (CsvPrefix + a + CsvSuffix);
    assert CsvPath(outputDir, b) == base + (CsvPrefix + b + CsvSuffix);
    if CsvPath(outputDir, a) == CsvPath(outputDir, b) {
      var n := |base + CsvPrefix|;
      assert |a| == |b|;
      assert a == CsvPath(outputDir, a)[n..n + |a|];
      assert b == CsvPath(outputDir, b)[n..n + |b|];
    }
  }

  /** date_time.strftime("%Y-%m-%d") + ".pdf" */
  function PdfName(dt: DateTime): string {
    FormatDate(dt.date) + ".pdf"
  }

  /** The PDF FILE column: the archive's file on the repository's main branch. */
  function PdfLink(dt: DateTime): string {
    RepoBlobRoot + PdfDefaultDir + "/" + Decimal(dt.date.year) + "/" + Decimal(dt.date.month) + "/" + PdfName(dt)
  }

  /** save_pdf_file's target: <dir>/<year>/<month>/<YYYY-MM-DD>.pdf, with
      year and month unpadded as str() renders them. */
  function PdfPath(outputDir: string, dt: DateTime): string {
    var dir := PathJoin(PathJoin(DirOr(outputDir, PdfDefaultDir), Decimal(dt.date.year)), Decimal(dt.date.month));
    PathJoin(dir, PdfName(dt))
  }

  /** The link written into the CSV points at the path save_pdf_file uses
      with the default directory, inside the repository. */
  lemma PdfLinkIsArchivePath(dt: DateTime)
    ensures PdfLink(dt) == RepoBlobRoot + PdfPath("", dt)
  {
    var y, m := Decimal(dt.date.year), Decimal(dt.date.month);
    var name := PdfName(dt);
    assert y[0] != '/' && y[|y| - 1] != '/';
    assert m[0] != '/' && m[|m| - 1] != '/';
    assert name[0] != '/';
    var d1 := PathJoin(PdfDefaultDir, y);
    assert d1 == PdfDefaultDir + "/" + y;
    var d2 := PathJoin(d1, m);
    assert d2 == d1 + "/" + m;
    assert PdfPath("", dt) == d2 + "/" + name;
  }

  /** The date part of a DATE cell is the date in the PDF's name. */
  lemma PdfNameMatchesDateCell(dt: DateTime)
    ensures FormatStamp(StampOf(dt))[..10] + ".pdf" == PdfName(dt)
  {
    assert FormatStamp(StampOf(dt))[..10] == FormatDate(dt.date);
  }

  /** Two sheets share an archived PDF name exactly when they share a date. */
  lemma PdfNameInjective(a: DateTime, b: DateTime)
    ensures PdfName(a) == PdfName(b) <==> a.date == b.date
  {
    if PdfName(a) == PdfName(b) {
      assert FormatDate(a.date) == PdfName(a)[..10];
      assert FormatDate(b.date) == PdfName(b)[..10];
      var sa, sb := Stamp(a.date, 0, 0), Stamp(b.date, 0, 0);
      assert FormatStamp(sa) == FormatStamp(sb);
      FormatStampInjective(sa, sb);
    }
  }
}
