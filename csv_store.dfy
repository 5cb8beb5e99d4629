/** save_to_csv (sbi_forex_downloader.py, lines 147-183): every record of a
    sheet becomes one row of its currency's CSV file, merged into the rows
    already there. The directory of CSV files is a map from path to the rows
    the file holds. */
module Writer {
  import opened Wrappers
  import opened Calendar
  import opened RateScanner
  import opened Series
  import opened Paths

  /** TABLE_COLUMNS */
  const TableColumns: seq<string> := [
    "TT BUY", "TT SELL", "BILL BUY", "BILL SELL",
    "FOREX TRAVEL CARD BUY", "FOREX TRAVEL CARD SELL", "CN BUY", "CN SELL"]

  /** HEADERS: the columns of every CSV file, in order. */
  const Headers: seq<string> := ["DATE", "PDF FILE"] + TableColumns

  /** The rate cells a record's row holds once written: zip() against HEADERS
      drops every rate past the eighth, and DictWriter writes an empty cell
      for every column the record has no rate for. */
  function RateCells(rates: seq<string>): (cells: seq<string>)
    ensures |cells| == |TableColumns|
  {
    seq(|TableColumns|, k requires 0 <= k < |TableColumns| => if k < |rates| then rates[k] else "")
  }

  /** Rates beyond the table are lost; a full table is kept as it is; a short
      one is padded with empty cells. */
  lemma RateCellsOfRates(rates: seq<string>)
    ensures |rates| >= |TableColumns| ==> RateCells(rates) == rates[..|TableColumns|]
    ensures |rates| <= |TableColumns| ==> RateCells(rates)[..|rates|] == rates
    ensures forall k | |rates| <= k < |TableColumns| :: RateCells(rates)[k] == ""
  {
  }

  /** The row new_data: the DATE text of the sheet's timestamp, the PDF
      link and the rate cells. */
  function NewRow(dt: DateTime, rates: seq<string>): (r: Row)
    ensures r.stamp == StampOf(dt) && |r.rates| == |TableColumns|
  {
    Row(StampOf(dt), PdfLink(dt), RateCells(rates))
  }

  /** The rows a file holds, or none when it does not exist yet. */
  function Existing(files: map<string, seq<Row>>, path: string): seq<Row> {
    if path in files then files[path] else []
  }

  /** One iteration of save_to_csv's loop: read, merge, write back. */
  function SaveOne(files: map<string, seq<Row>>, outputDir: string, dt: DateTime, rec: RateRecord): map<string, seq<Row>> {
    var path := CsvPath(outputDir, rec.code);
    files[path := Merge(Existing(files, path), NewRow(dt, rec.rates))]
  }

  /** The whole loop over rates_data, in order. */
  function SaveAll(files: map<string, seq<Row>>, outputDir: string, dt: DateTime, records: seq<RateRecord>): map<string, seq<Row>>
    decreases |records|
  {
    if records == [] then files
    else SaveOne(SaveAll(files, outputDir, dt, records[..|records| - 1]), outputDir, dt, records[|records| - 1])
  }

  lemma SaveAllStep(files: map<string, seq<Row>>, outputDir: string, dt: DateTime, records: seq<RateRecord>, n: nat)
    requires n < |records|
    ensures SaveAll(files, outputDir, dt, records[..n + 1])
      == SaveOne(SaveAll(files, outputDir, dt, records[..n]), outputDir, dt, records[n])
  {
    assert records[..n + 1][..n] == records[..n];
  }

  /** The rates of the last record with the given code. */
  function LastRatesFor(records: seq<RateRecord>, code: string): (r: Option<seq<string>>)
    ensures r.None? <==> forall k | 0 <= k < |records| :: records[k].code != code
    ensures r.Some? ==> exists k | 0 <= k < |records| :: records[k].code == code && records[k].rates == r.value
    decreases |records|
  {
    if records == [] then None
    else if records[|records| - 1].code == code then Some(records[|records| - 1].rates)
    else
      var r := LastRatesFor(records[..|records| - 1], code);
      assert forall k | 0 <= k < |records| - 1 :: records[..|records| - 1][k] == records[k];
      r
  }

  /** Storing two rows of the same timestamp one after the other leaves the
      second. */
  lemma UpsertTwice(s: seq<Row>, a: Row, b: Row)
    requires StrictlyAscending(s) && a.stamp == b.stamp
    ensures Upsert(Upsert(s, a), b) == Upsert(s, b)
  {
    UpsertShape(s, a);
    UpsertShape(Upsert(s, a), b);
    UpsertShape(s, b);
    AscendingUnique(Upsert(Upsert(s, a), b), Upsert(s, b));
  }

  /** A file no record of the sheet maps to is left as it was. */
  lemma {:induction false} SaveAllUntouched(files: map<string, seq<Row>>, outputDir: string, dt: DateTime, records: seq<RateRecord>, path: string)
    requires forall k | 0 <= k < |records| :: CsvPath(outputDir, records[k].code) != path
    ensures path in SaveAll(files, outputDir, dt, records) <==> path in files
    ensures path in files ==> SaveAll(files, outputDir, dt, records)[path] == files[path]
    decreases |records|
  {
    if records != [] {
      var init := records[..|records| - 1];
      assert forall k | 0 <= k < |init| :: init[k] == records[k];
      SaveAllUntouched(files, outputDir, dt, init, path);
    }
  }

  /** One record's effect on the file of a currency. */
  lemma SaveOneFile(files: map<string, seq<Row>>, outputDir: string, dt: DateTime, rec: RateRecord, code: string)
    requires StrictlyAscending(Existing(files, CsvPath(outputDir, code)))
    ensures var path, after := CsvPath(outputDir, code), SaveOne(files, outputDir, dt, rec);
      && (path in after <==> path in files || rec.code == code)
      && Existing(after, path) == if rec.code == code then Upsert(Existing(files, path), NewRow(dt, rec.rates)) else Existing(files, path)
  {
    CsvPathInjective(outputDir, rec.code, code);
    if rec.code == code {
      MergeIsUpsert(Existing(files, CsvPath(outputDir, code)), NewRow(dt, rec.rates));
    }
  }

  /** The file of a currency after a sheet is saved: its earlier series with
      the row of the currency's last record on the sheet stored in place,
      replacing an earlier row of the same timestamp and keeping all others;
      a currency the sheet lacks keeps its file as it was. */
  lemma {:induction false} SaveAllFile(files: map<string, seq<Row>>, outputDir: string, dt: DateTime, records: seq<RateRecord>, code: string)
    requires StrictlyAscending(Existing(files, CsvPath(outputDir, code)))
    ensures var path, after := CsvPath(outputDir, code), SaveAll(files, outputDir, dt, records);
      && (path in after <==> path in files || LastRatesFor(records, code).Some?)
      && Existing(after, path) ==
           match LastRatesFor(records, code)
           case Some(rates) => Upsert(Existing(files, path), NewRow(dt, rates))
           case None => Existing(files, path)
    decreases |records|
  {
    if records != [] {
      var path := CsvPath(outputDir, code);
      var init, last := records[..|records| - 1], records[|records| - 1];
      SaveAllFile(files, outputDir, dt, init, code);
      var before := SaveAll(files, outputDir, dt, init);
      var e := Existing(files, path);
      match LastRatesFor(init, code)
      case Some(rates) =>
        UpsertShape(e, NewRow(dt, rates));
        SaveOneFile(before, outputDir, dt, last, code);
        if last.code == code {
          UpsertTwice(e, NewRow(dt, rates), NewRow(dt, last.rates));
        }
      case None =>
        SaveOneFile(before, outputDir, dt, last, code);
    }
  }

  /** Every file of the directory is a strictly ascending series. */
  predicate AllAscending(files: map<string, seq<Row>>) {
    forall p | p in files :: StrictlyAscending(files[p])
  }

  lemma SaveOneAscending(files: map<string, seq<Row>>, outputDir: string, dt: DateTime, rec: RateRecord)
    requires AllAscending(files)
    ensures AllAscending(SaveOne(files, outputDir, dt, rec))
  {
  }

  /** Saving a sheet keeps every file a strictly ascending series. */
  lemma {:induction false} SaveAllAscending(files: map<string, seq<Row>>, outputDir: string, dt: DateTime, records: seq<RateRecord>)
    requires AllAscending(files)
    ensures AllAscending(SaveAll(files, outputDir, dt, records))
    decreases |records|
  {
    if records != [] {
      var init := records[..|records| - 1];
      SaveAllAscending(files, outputDir, dt, init);
      SaveOneAscending(SaveAll(files, outputDir, dt, init), outputDir, dt, records[|records| - 1]);
    }
  }

  /** The directory of CSV files, which save_to_csv reads and rewrites. */
  class CsvStore {
    var files: map<string, seq<Row>>

    constructor(files0: map<string, seq<Row>>)
      ensures files == files0
    {
      files := files0;
    }

    /** save_to_csv(rates_data, date_time, output_dir) */
    method SaveToCsv(ratesData: seq<RateRecord>, dt: DateTime, outputDir: string)
      modifies this
      ensures files == SaveAll(old(files), outputDir, dt, ratesData)
    {
      for n := 0 to |ratesData|
        invariant files == SaveAll(old(files), outputDir, dt, ratesData[..n])
      {
        SaveAllStep(old(files), outputDir, dt, ratesData, n);
        var rec := ratesData[n];
        var path := CsvPath(outputDir, rec.code);
        var rows := if path in files then files[path] else [];
        var newData := NewRow(dt, rec.rates);
        files := files[path := Merge(rows, newData)];
      }
      assert ratesData[..|ratesData|] == ratesData;
    }
  }
}
