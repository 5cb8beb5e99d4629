# SBI reference-rate keeper, modelled in Dafny

The repository downloads the State Bank of India's daily forex reference-rate
sheet (a PDF), reads the publication date and the rate table out of it, and
appends one row per currency to a CSV series kept in the repository. This
project models the decision logic of that pipeline and proves what it
promises:

- **Date and time resolution** (`extract_date_time`, `parse_date`,
  `parse_time`): the first line labelled "date" and the first labelled "time"
  are chosen. The day-first and month-first readings of the date line must
  agree. If they disagree, the PDF's creation date breaks the tie only when it
  is one of the two readings. The fuzzy `dateutil` parser is a parameter
  (`DateParser`), so the rule is proved for every parser.
- **The currency-line scanner** (`extract_currency_rates`): the regular
  expression `([A-Z]{3})\/INR\s*((?:\d+(?:\.\d+)?\s?)+)` is matched by hand
  with `re.search`'s greedy, first-position semantics. The captured group is
  stripped and split on whitespace.
- **The CSV merge** (`save_to_csv`): the new row is appended, rows are
  deduplicated by DATE (the dict comprehension keeps the last value) and
  sorted by timestamp. This is proved equal to an "upsert" into a strictly
  ascending series.
  - The directory of CSV files is a `CsvStore` object whose `files` map from
    path to rows is rewritten record by record.
  - Rate lists are truncated to the eight columns, as `zip` does, and padded
    with empty cells, as `DictWriter` does.
- **Page selection** (`process_content`, `process_as_image`):
  - The text path reads the date from page 0 and the rates from the first of
    the first two pages that carries "to be used as reference rates".
  - The image path takes the first model answer that flags the table and
    reports the expected headers.
  - The PDF reader, the renderer and the model's answers are inputs.
- **Paths**: the CSV file of a currency, the archive path of the PDF, and the
  repository link written into the PDF FILE column.
- **`extract_month_from_filename`** (`one_time_downloader.py`): the month
  directory for a downloaded sheet. It is read from the first DDMMYYYY group
  in the file name, with "January" as the fallback.

Files: `wrappers.dfy` (Option, Result), `text.dfy` (Python string operations:
`strip`, `lower`, `split`, whitespace), `calendar.dfy` (dates, the DATE text
and its round trip), `date_time.dfy`, `rate_scanner.dfy`, `series.dfy`,
`paths.dfy`, `csv_store.dfy`, `pipeline.dfy`, `month_of_filename.dfy`.

### Behaviour of the code worth knowing

- A currency code must be followed directly by "/INR". Whitespace is allowed
  only after "/INR", not between the code and the slash.
- An empty rate list on the text path is a success. Only the image path's
  result is checked for emptiness (line 323), so a text-path sheet with no
  matching line yields no rows and no fallback.
- On the image path, three failures propagate instead of moving to the next
  page:
  - an answer that is not JSON;
  - an answer whose `headers` entry is missing;
  - a date or time that cannot be resolved, including an ambiguous date.
    Here no creation date is passed, so an ambiguous date can never be
    resolved.
- The ambiguity error inside `parse_date` is caught by its own `except` and
  leaves as `ValueError`, not as a separate error kind.

## Model

| member | source | states |
|---|---|---|
| DateTimeResolver.FirstLabelled | sbi_forex_downloader.py:72-79 | the index of the first line whose stripped, lower-cased text starts with the tag; none exactly when no line does |
| DateTimeResolver.ParseDate | sbi_forex_downloader.py:90-112 | agreeing readings are accepted whatever the reference; disagreeing readings are accepted only as the reference date and only when it is one of them; otherwise ValueError (ambiguous or unparsable); an accepted date is always one of the readings |
| DateTimeResolver.ParseTime | sbi_forex_downloader.py:115-122 | succeeds exactly when the parser yields a time, with that time; otherwise ValueError |
| DateTimeResolver.ExtractDateTime | sbi_forex_downloader.py:65-87 | DateTimeExtractionError exactly when no line is labelled "date" or none "time"; a result is the parse of the first date line and the first time line; a ValueError means one of those two failed |
| Calendar.ReadFormatStamp | sbi_forex_downloader.py:176-178 | strptime of a DATE cell written by strftime gives back the timestamp, so the sort key is the row's timestamp |
| Calendar.FormatStampInjective | sbi_forex_downloader.py:155-155 | two timestamps have the same DATE text only when they are equal |
| RateScanner.SearchFrom | sbi_forex_downloader.py:137-137 | the first start position at or after i where the whole pattern matches, none when there is none |
| RateScanner.RunSplits | sbi_forex_downloader.py:139-141 | `rates_string.strip().split()` of the captured group gives exactly the number tokens its repetitions matched |
| RateScanner.RecordAtWellFormed | sbi_forex_downloader.py:132-141 | a match yields a code of three letters A-Z and at least one rate, each digits or digits.digits |
| RateScanner.RecordAtCode | sbi_forex_downloader.py:132-141 | the code of a record is immediately followed by "/INR" in its line |
| RateScanner.ScanLine | sbi_forex_downloader.py:137-142 | a line yields a record exactly when the pattern matches somewhere in it, and that record is well formed |
| RateScanner.CurrencyRecordsAppend | sbi_forex_downloader.py:136-142 | the records of two runs of lines are the records of the first followed by those of the second (line order) |
| RateScanner.CurrencyRecordsOfLine | sbi_forex_downloader.py:136-142 | one line contributes at most one record: its match, or nothing |
| RateScanner.CurrencyRecordsEmpty | sbi_forex_downloader.py:134-144 | the result is empty exactly when no line matches |
| RateScanner.ExtractCurrencyRates | sbi_forex_downloader.py:125-144 | the loop's list is the records of `text.split("\n")`, one per matching line, in order |
| Series.SameDateCellSameStamp | sbi_forex_downloader.py:175-175 | grouping rows by DATE text is grouping them by timestamp |
| Series.DedupKeepsLatest | sbi_forex_downloader.py:175-175 | after the dict comprehension no two rows share a timestamp, and a row survives exactly when it is the last row of its timestamp |
| Series.SortByStamp | sbi_forex_downloader.py:176-178 | the sort keeps length and members and orders strictly ascending by timestamp |
| Series.Merge | sbi_forex_downloader.py:173-178 | the merged series is strictly ascending and holds exactly the last row of each timestamp among the old rows and the new one |
| Series.UpsertShape | sbi_forex_downloader.py:173-178 | the reference definition keeps a series strictly ascending, contains the new row, drops the row of the same timestamp and keeps every other row |
| Series.MergeIsUpsert | sbi_forex_downloader.py:173-178 | on a stored (ascending) series the merge equals the upsert |
| Series.MergeIdempotent | sbi_forex_downloader.py:173-178 | merging the same row twice gives the series of merging it once |
| Paths.CsvPathInjective | sbi_forex_downloader.py:157-166 | in one output directory two currency codes share a CSV file exactly when they are equal |
| Paths.PdfLinkIsArchivePath | sbi_forex_downloader.py:153-154 | the PDF FILE link is the repository root followed by the path save_pdf_file writes with the default directory |
| Paths.PdfNameMatchesDateCell | sbi_forex_downloader.py:153-155 | the date in the PDF's name is the date part of the DATE cell |
| Paths.PdfNameInjective | sbi_forex_downloader.py:195-195 | two sheets get the same PDF name exactly when they have the same date |
| Writer.RateCellsOfRates | sbi_forex_downloader.py:162-164 | rates past the eighth are dropped, a full table is kept, missing rates become empty cells |
| Writer.UpsertTwice | sbi_forex_downloader.py:160-183 | a second record of the same currency replaces the row the first one stored |
| Writer.SaveAllUntouched | sbi_forex_downloader.py:160-183 | a file no record maps to is neither created nor changed |
| Writer.SaveAllFile | sbi_forex_downloader.py:160-183 | a currency's file exists afterwards exactly when it existed or the sheet has the currency; its rows are the old series upserted with the row of the currency's last record |
| Writer.SaveAllAscending | sbi_forex_downloader.py:160-183 | saving a sheet keeps every file strictly ascending |
| Writer.CsvStore.SaveToCsv | sbi_forex_downloader.py:147-183 | the new directory is the old one with each record merged in, in order |
| Pipeline.FirstReferencePage | sbi_forex_downloader.py:306-311 | the first of the first two pages that carries the notice; none exactly when neither does |
| Pipeline.FindReferencePage | sbi_forex_downloader.py:306-316 | the loop with its break finds that page's text, or nothing |
| Pipeline.TextAttemptFails | sbi_forex_downloader.py:301-321 | the text path fails exactly when the file is unreadable, has no pages, page 0's date cannot be resolved, or neither of the first two pages carries the notice |
| Pipeline.TextAttemptResult | sbi_forex_downloader.py:303-318 | a text-path result has page 0's date and the records of the first reference page |
| Pipeline.TextAttemptFirstTwoPages | sbi_forex_downloader.py:307-307 | pages after the second never change the text path |
| Pipeline.TryText | sbi_forex_downloader.py:301-318 | the try block computes the text-path result, or none where it raises |
| Pipeline.FirstDecisive | sbi_forex_downloader.py:254-285 | the first answer the loop does not move past; every earlier answer is moved past |
| Pipeline.ProcessAsImage | sbi_forex_downloader.py:243-294 | render or key errors first, then the outcome of the first decisive answer, or ValueError when every answer is moved past |
| Pipeline.ScanAnswersStopsAtFirstDecisive | sbi_forex_downloader.py:254-292 | answers after the first decisive one never matter |
| Pipeline.ImageDateTextLabelled | sbi_forex_downloader.py:289-289 | the constructed text's first line is labelled "date" and some line is labelled "time" |
| Pipeline.ImageDateFound | sbi_forex_downloader.py:286-290 | on the image path extract_date_time never reports a missing line |
| Pipeline.ImageDateAmbiguous | sbi_forex_downloader.py:289-290 | an ambiguous date on the image path is a ValueError that leaves process_as_image |
| Pipeline.Process | sbi_forex_downloader.py:301-325 | a text-path result is final even with no records; when the text path fails, an image-path error is passed on unchanged, an image result with no rates becomes "No rates were found." and any other image result is returned as is; a result is tagged with the text path exactly when the text path succeeded |
| Pipeline.ProcessContent | sbi_forex_downloader.py:297-332 | on success the sheet is merged into the CSV files and, with save_file, archived under the PDF path; on failure nothing is written |
| FilenameMonth.Scan | one_time_downloader.py:85-99 | the loop always ends with one of the twelve month names |
| FilenameMonth.MonthFromFilename | one_time_downloader.py:74-99 | the result is always a month name, and "January" for a name without '_' |
| FilenameMonth.ExtractMonthFromFilename | one_time_downloader.py:74-99 | the loop with its early returns computes MonthFromFilename |
| FilenameMonth.ScanSkips | one_time_downloader.py:85-92 | parts that are not a digit group, or whose month digits are out of range, leave the answer to the later parts |
| FilenameMonth.ScanFirstMonth | one_time_downloader.py:85-96 | the name is the month of the first part that gives one when every earlier part was moved past, and "January" when no part gives one |
| FilenameMonth.RaisesOnlyOnNonAscii | one_time_downloader.py:88-99 | int() can only raise (and so force "January") on a non-ASCII digit in the month position |
| FilenameMonth.AsciiDateGroup | one_time_downloader.py:86-89 | an ASCII group of at least eight digits gives the month of its third and fourth digits, or is moved past when that is not 1..12 |
| FilenameMonth.ExampleName | one_time_downloader.py:78-79 | SBI_FOREX_CARD_RATES_12052025_0430.pdf is filed under May |

## Left out

- Network acquisition (`setup_session`, `download_pdf`, `get_latest_pdf_from_sbi`): HTTP, proxies and PDF sniffing are I/O with no decision logic beyond a fixed order of attempts.
- PyPDF2, pdf2image and the Anthropic API are foreign code. The PDF is a `PdfDoc` (unreadable, or page texts and a creation date). The rendered pages are an optional sequence of decoded answers, where none means the renderer raised. The API key is a flag.
- `dateutil.parser.parse` is not reproduced. It is the `DateParser` parameter, so every property holds for any parser. Its `OverflowError`, which `parse_time` would let through, is not modelled.
- File I/O: reading and writing CSV files, `os.makedirs`, writing the archived PDF, and logging. The CSV directory is a map from path to rows. `ProcessContent` returns the archive path it would write.
- `parse_historical_data` and the other functions of `one_time_downloader.py` are batch I/O around the modelled functions. `setup.py` is packaging only.
- Existing CSV rows are assumed to be rows this code wrote, with a canonical DATE text. A hand-edited DATE that `strptime` rejects, or that differs from its canonical text, is not modelled.
- RateScanner.SearchFrom: `\d` is taken as the ASCII digits 0-9. The pattern is a str pattern compiled without `re.ASCII`, so Python's `\d` also matches every other Unicode decimal digit (Arabic-Indic, Devanagari and so on). A line that matches only through such digits, such as "USD/INR ١٢", gives no record here. The sheets print their rates in ASCII.
- RateScanner.ScanLine: "a record exactly when the pattern matches" is stated for that ASCII-only `\d`, for the reason given under RateScanner.SearchFrom. The same holds for the records of RateScanner.ExtractCurrencyRates.
- Text.Lower: lower-cases A-Z only. Python's `lower` also maps other letters. No non-ASCII letter lowercases to a letter of "date", "time" or the marker phrase in a way that completes it, so the probes are unaffected.
- FilenameMonth.DigitTable: `str.isdigit` and `int()` consult Unicode tables, which enter as a parameter. Only ASCII digits and "every decimal digit is a digit" are fixed.
- FilenameMonth.MonthNames: `%B` is taken in the C locale. Other locales are not modelled.
- FilenameMonth.ExampleName: the example file name is written as the '_'-join of its parts, not as one literal.
- Series.SortByStamp: states equal length and equal members rather than a multiset equality. Under its precondition (distinct timestamps) the two say the same.
- Series.Merge: the dict rebuild and the in-place `sort` are a function on values, not a mutable list.
- Pipeline.Decide: JSON values are reduced to what the code reads. `has_reference_rates` is a truth value. `headers` is absent, unsliceable, a string or a list. `date` and `time` are the text `str()` gives them. Image-path rates are their text, while the JSON may hold numbers that `csv` writes with `str()`.
- Rate records from the image path are assumed to have `currency_code` and `rates` entries. The `KeyError` `save_to_csv` would raise otherwise is not modelled.
