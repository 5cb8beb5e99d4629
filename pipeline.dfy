/** process_content and process_as_image (sbi_forex_downloader.py, lines
    243-332): the text path reads the date from page 0 and the rates from
    the first of the first two pages that carries the reference-rates
    notice; any failure there falls back to the image path, which asks the
    model about each rendered page in turn and takes the first page it
    reports as the reference-rate table.

    The PDF reader, the page renderer and the model's answers are inputs:
    a PdfDoc, and one PageResponse per rendered page. */
module Pipeline {
  import opened Wrappers
  import opened Text
  import opened Calendar
  import opened DateTimeResolver
  import opened RateScanner
  import opened Series
  import opened Paths
  import opened Writer

  /** What PyPDF2 makes of the file: nothing (the reader raises), or the
      text of each page and the creation date of its metadata. */
  datatype PdfDoc = Unreadable | Pdf(pages: seq<string>, creationDate: Option<DateTime>)

  /** The "headers" entry of a decoded answer: absent or of a type that
      cannot be sliced (None, a number, an object), a string, or a list. */
  datatype HeadersValue = NoHeaders | HeaderText(text: string) | HeaderList(items: seq<string>)

  /** One page's answer, as json.loads leaves it: not JSON at all, JSON that
      is not an object, or an object with the entries the code reads (the
      date and time entries as str() renders them). */
  datatype PageResponse =
    | Undecodable
    | NotAnObject
    | Answer(hasReferenceRates: bool, headers: HeadersValue, date: Option<string>,
             time: Option<string>, forexRates: Option<seq<RateRecord>>)

  /** The exceptions that leave process_content. */
  datatype PipelineError =
    | RenderError                   // convert_from_bytes raised
    | EnvironmentError              // ANTHROPIC_API_KEY not set
    | JsonDecodeError
    | AttributeError                // .get on an answer that is not an object
    | TypeError                     // headers that cannot be sliced
    | KeyError(key: string)
    | DateTimeFailed(failure: Failure)
    | NoReferenceRates              // no page answered with the table
    | NoRatesFound                  // the image path found an empty table

  datatype Path = TextPath | ImagePath

  /** The sheet's timestamp and records, and the path that produced them. */
  datatype Extraction = Extraction(path: Path, when: DateTime, rates: seq<RateRecord>)

  const Marker := "to be used as reference rates"

  /** The text path's test of a page. */
  predicate IsReferencePage(page: string) {
    Contains(Lower(page), Marker)
  }

  // ---------------------------------------------------------------------
  // The text path

  /** The index of the first of reader.pages[:2] that carries the notice. */
  function FirstReferencePage(pages: seq<string>): (r: Option<nat>)
    ensures r.Some? ==> r.value < 2 && r.value < |pages| && IsReferencePage(pages[r.value])
    ensures r.Some? ==> forall k | 0 <= k < r.value :: !IsReferencePage(pages[k])
    ensures r.None? <==> forall k | 0 <= k < 2 && k < |pages| :: !IsReferencePage(pages[k])
  {
    if |pages| > 0 && IsReferencePage(pages[0]) then Some(0)
    else if |pages| > 1 && IsReferencePage(pages[1]) then Some(1)
    else None
  }

  /** The loop over reader.pages[:2] with its break. */
  method FindReferencePage(pages: seq<string>) returns (referencePage: Option<string>)
    ensures referencePage.Some? <==> FirstReferencePage(pages).Some?
    ensures referencePage.Some? ==> referencePage.value == pages[FirstReferencePage(pages).value]
  {
    referencePage := None;
    var candidates := if |pages| < 2 then pages else pages[..2];
    var n := 0;
    while n < |candidates|
      invariant 0 <= n <= |candidates|
      invariant referencePage.None?
      invariant forall k | 0 <= k < n :: !IsReferencePage(pages[k])
    {
      var pageText := candidates[n];
      if Contains(Lower(pageText), Marker) {
        referencePage := Some(pageText);
        break;
      }
      n := n + 1;
    }
  }

  /** The try block of process_content: None wherever it raises. */
  function TextAttempt(doc: PdfDoc, p: DateParser): Option<Extraction> {
    match doc
    case Unreadable => None
    case Pdf(pages, created) =>
      if pages == [] then None   // reader.pages[0] raises IndexError
      else
        match ExtractDateTime(pages[0], p, created)
        case Err(_) => None
        case Ok(when) =>
          match FirstReferencePage(pages)
          case None => None
          case Some(i) => Some(Extraction(TextPath, when, CurrencyRecords(Split(pages[i], '\n'))))
  }

  /** The text path fails exactly when the file cannot be read, has no
      pages, page 0's date cannot be resolved with the file's creation date,
      or neither of the first two pages carries the notice. */
  lemma TextAttemptFails(doc: PdfDoc, p: DateParser)
    ensures TextAttempt(doc, p).None? <==>
      || doc.Unreadable? || doc.pages == []
      || ExtractDateTime(doc.pages[0], p, doc.creationDate).Err?
      || forall k | 0 <= k < 2 && k < |doc.pages| :: !IsReferencePage(doc.pages[k])
  {
    match doc
    case Unreadable =>
    case Pdf(pages, created) =>
      if pages != [] {
        var when, i := ExtractDateTime(pages[0], p, created), FirstReferencePage(pages);
        assert TextAttempt(doc, p).Some? <==> when.Ok? && i.Some?;
        assert i.None? <==> forall k | 0 <= k < 2 && k < |pages| :: !IsReferencePage(pages[k]);
      }
  }

  /** What the text path yields: the date of page 0 and the records of the
      first page among the first two that carries the notice. */
  lemma TextAttemptResult(doc: PdfDoc, p: DateParser)
    requires TextAttempt(doc, p).Some?
    ensures var x, i := TextAttempt(doc, p).value, FirstReferencePage(doc.pages).value;
      && x.path == TextPath
      && ExtractDateTime(doc.pages[0], p, doc.creationDate) == Ok(x.when)
      && x.rates == CurrencyRecords(Split(doc.pages[i], '\n'))
      && i < 2 && IsReferencePage(doc.pages[i])
      && forall k | 0 <= k < i :: !IsReferencePage(doc.pages[k])
  {
  }

  /** Pages after the second never matter to the text path. */
  lemma TextAttemptFirstTwoPages(pages: seq<string>, more: seq<string>, created: Option<DateTime>, p: DateParser)
    requires |pages| >= 2
    ensures TextAttempt(Pdf(pages + more, created), p) == TextAttempt(Pdf(pages, created), p)
  {
    var all := pages + more;
    assert all[0] == pages[0] && all[1] == pages[1];
    assert FirstReferencePage(all) == FirstReferencePage(pages);
  }

  // ---------------------------------------------------------------------
  // The image path

  /** response_json.get("headers")[1:] == TABLE_COLUMNS, where it does not raise. */
  predicate HeadersMatch(h: HeadersValue) {
    h.HeaderList? && |h.items| >= 1 && h.items[1..] == TableColumns
  }

  /** An answer the loop moves past: an object whose flag is falsy, or whose
      headers (sliceable) do not match. */
  predicate Skipped(r: PageResponse) {
    r.Answer? && (!r.hasReferenceRates || (!r.headers.NoHeaders? && !HeadersMatch(r.headers)))
  }

  /** "Date: {date_str}\nTime: {time_str}" */
  function ImageDateText(date: string, time: string): string {
    "Date:" + " " + date + "\n" + "Time:" + " " + time
  }

  /** The outcome of the first answer the loop does not move past. */
  function Decide(r: PageResponse, p: DateParser): (outcome: Result<Extraction, PipelineError>)
    requires !Skipped(r)
    ensures outcome.Ok? ==> outcome.value.path == ImagePath
  {
    match r
    case Undecodable => Err(JsonDecodeError)
    case NotAnObject => Err(AttributeError)
    case Answer(_, headers, date, time, forexRates) =>
      if headers.NoHeaders? then Err(TypeError)
      else if date.None? then Err(KeyError("date"))
      else if time.None? then Err(KeyError("time"))
      else
        match ExtractDateTime(ImageDateText(date.value, time.value), p, None)
        case Err(f) => Err(DateTimeFailed(f))
        case Ok(when) =>
          if forexRates.None? then Err(KeyError("forex_rates"))
          else Ok(Extraction(ImagePath, when, forexRates.value))
  }

  /** The index of the first answer that is not Skipped. */
  function FirstDecisive(responses: seq<PageResponse>): (r: Option<nat>)
    ensures r.Some? ==> r.value < |responses| && !Skipped(responses[r.value])
    ensures r.Some? ==> forall k | 0 <= k < r.value :: Skipped(responses[k])
    ensures r.None? <==> forall k | 0 <= k < |responses| :: Skipped(responses[k])
    decreases |responses|
  {
    if responses == [] then None
    else if !Skipped(responses[0]) then Some(0)
    else
      match FirstDecisive(responses[1..])
      case None => None
      case Some(i) => Some(i + 1)
  }

  /** The loop of process_as_image over the answers, as a specification. */
  function ScanAnswers(responses: seq<PageResponse>, p: DateParser): Result<Extraction, PipelineError> {
    match FirstDecisive(responses)
    case None => Err(NoReferenceRates)
    case Some(i) => Decide(responses[i], p)
  }

  /** process_as_image: None for the pages stands for a renderer that raised. */
  function ImageAttempt(rendered: Option<seq<PageResponse>>, apiKeySet: bool, p: DateParser): Result<Extraction, PipelineError> {
    if rendered.None? then Err(RenderError)
    else if !apiKeySet then Err(EnvironmentError)
    else ScanAnswers(rendered.value, p)
  }

  /** The loop of process_as_image: ask page after page, return at the first
      page reported as the table, raise at the first answer that raises. */
  method ProcessAsImage(rendered: Option<seq<PageResponse>>, apiKeySet: bool, p: DateParser)
    returns (outcome: Result<Extraction, PipelineError>)
    ensures outcome == ImageAttempt(rendered, apiKeySet, p)
  {
    if rendered.None? {
      return Err(RenderError);
    }
    if !apiKeySet {
      return Err(EnvironmentError);
    }
    var responses := rendered.value;
    for n := 0 to |responses|
      invariant forall k | 0 <= k < n :: Skipped(responses[k])
    {
      var response := responses[n];
      match response
      case Undecodable =>
        return Err(JsonDecodeError);
      case NotAnObject =>
        return Err(AttributeError);
      case Answer(hasReferenceRates, headers, date, time, forexRates) =>
        if hasReferenceRates {
          if headers.NoHeaders? {
            return Err(TypeError);
          }
          if HeadersMatch(headers) {
            outcome := Decide(response, p);
            return;
          }
        }
    }
    return Err(NoReferenceRates);
  }

  /** Once a page decides, the pages after it are never asked about. */
  lemma ScanAnswersStopsAtFirstDecisive(responses: seq<PageResponse>, more: seq<PageResponse>, p: DateParser)
    requires FirstDecisive(responses).Some?
    ensures ScanAnswers(responses + more, p) == ScanAnswers(responses, p)
  {
    var i := FirstDecisive(responses).value;
    var all := responses + more;
    assert forall k | 0 <= k <= i :: all[k] == responses[k];
    assert FirstDecisive(all).Some?;
    var j := FirstDecisive(all).value;
    assert !Skipped(all[i]);
    assert j <= i ==> all[j] == responses[j];
  }

  /** The lines of the image path's text: the first line holds the date
      entry, and some later line begins the time entry. */
  lemma ImageDateLines(date: string, time: string) returns (m: nat)
    ensures var lines := Split(ImageDateText(date, time), '\n');
      && m < |lines|
      && lines[0] == Split("Date:" + " " + date, '\n')[0]
      && lines[m] == Split("Time:" + " " + time, '\n')[0]
  {
    var head, tail := "Date:" + " " + date, "Time:" + " " + time;
    assert ImageDateText(date, time) == head + ['\n'] + tail;
    SplitConcat(head, tail, '\n');
    m := |Split(head, '\n')|;
  }

  /** A line "<Tag>: <value>" is labelled by the tag in lower case. */
  lemma {:induction false} EntryLabelled(word: string, tag: string, value: string)
    requires word != [] && '\n' !in word
    requires forall i | 0 <= i < |word| :: !IsSpace(word[i])
    requires StartsWith(Lower(word), tag)
    ensures IsLabelled(Split(word + " " + value, '\n')[0], tag)
  {
    LabelOnFirstLine(word, " " + value, tag);
    assert word + (" " + value) == word + " " + value;
  }

  /** The text handed to extract_date_time on the image path always has a
      "date" line (its first line) and a "time" line. */
  lemma {:induction false} ImageDateTextLabelled(date: string, time: string)
    ensures var lines := Split(ImageDateText(date, time), '\n');
      && IsLabelled(lines[0], "date")
      && exists k | 0 <= k < |lines| :: IsLabelled(lines[k], "time")
  {
    var m := ImageDateLines(date, time);
    TagWord("Date:", "date");
    EntryLabelled("Date:", "date", date);
    TagWord("Time:", "time");
    EntryLabelled("Time:", "time", time);
  }

  /** "Date:" and "Time:" are single non-blank words whose lower case
      starts with the tag they carry. */
  lemma TagWord(word: string, tag: string)
    requires (word, tag) == ("Date:", "date") || (word, tag) == ("Time:", "time")
    ensures word != [] && '\n' !in word
    ensures forall i | 0 <= i < |word| :: !IsSpace(word[i])
    ensures StartsWith(Lower(word), tag)
  {
    assert |word| == 5 && word[4] == ':';
    assert 'A' <= word[0] <= 'Z' && 'a' <= word[1] <= 'z' && 'a' <= word[2] <= 'z' && 'a' <= word[3] <= 'z';
    var l := Lower(word);
    assert l[0] == tag[0] && l[1] == tag[1] && l[2] == tag[2] && l[3] == tag[3];
    assert l[..4] == tag;
  }

  /** A text beginning with a non-blank tag word, its first line is labelled
      by that word in lower case. */
  lemma LabelOnFirstLine(word: string, rest: string, tag: string)
    requires word != [] && '\n' !in word
    requires forall i | 0 <= i < |word| :: !IsSpace(word[i])
    requires StartsWith(Lower(word), tag)
    ensures IsLabelled(Split(word + rest, '\n')[0], tag)
  {
    var line := Split(word + rest, '\n')[0];
    SplitFirstPiece(word, rest, '\n');
    StripKeepsHead(line, word);
    LowerStartsWith(Strip(line), word);
    StartsWithTrans(Lower(Strip(line)), Lower(word), tag);
  }

  /** On the image path extract_date_time never reports a missing line:
      every answer that gets as far as the date is judged on its date and
      time. */
  lemma {:induction false} ImageDateFound(date: string, time: string, p: DateParser)
    ensures ExtractDateTime(ImageDateText(date, time), p, None) != Err(DateTimeExtractionError)
  {
    ImageDateTextLabelled(date, time);
  }

  /** The line extract_date_time reads the date from on the image path is
      the first. */
  lemma {:induction false} ImageDateLine(date: string, time: string)
    ensures var lines := Split(ImageDateText(date, time), '\n');
      FirstLabelled(lines, "date") == Some(0) && FirstLabelled(lines, "time").Some?
  {
    ImageDateTextLabelled(date, time);
  }

  /** With no creation date to break a tie, an ambiguous date on the image
      path is an error that propagates rather than a reason to try the next
      page. */
  lemma {:induction false} ImageDateAmbiguous(date: string, time: string, p: DateParser)
    requires Ambiguous(Split(ImageDateText(date, time), '\n')[0], p)
    ensures ExtractDateTime(ImageDateText(date, time), p, None) == Err(ValueError(AmbiguousDate))
  {
    ImageDateLine(date, time);
    var lines := Split(ImageDateText(date, time), '\n');
    assert ParseDate(lines[0], p, None) == Err(ValueError(AmbiguousDate));
  }

  // ---------------------------------------------------------------------
  // process_content

  /** The outcome of process_content before anything is saved. */
  function Process(doc: PdfDoc, rendered: Option<seq<PageResponse>>, apiKeySet: bool, p: DateParser): (r: Result<Extraction, PipelineError>)
    // a successful text path is final, even with no records
    ensures TextAttempt(doc, p).Some? ==> r == Ok(TextAttempt(doc, p).value)
    // otherwise an error of the image path is passed on unchanged
    ensures TextAttempt(doc, p).None? && ImageAttempt(rendered, apiKeySet, p).Err? ==>
      r == ImageAttempt(rendered, apiKeySet, p)
    // and its result is accepted only when it holds rates ("No rates were found.")
    ensures TextAttempt(doc, p).None? && ImageAttempt(rendered, apiKeySet, p).Ok? ==>
      r == if ImageAttempt(rendered, apiKeySet, p).value.rates == [] then Err(NoRatesFound)
           else ImageAttempt(rendered, apiKeySet, p)
    // a result names the path that produced it
    ensures r.Ok? ==> (r.value.path == TextPath <==> TextAttempt(doc, p).Some?)
    // the image path is used exactly when the text path fails and the image path finds rates
    ensures r.Ok? && r.value.path == ImagePath <==> TextAttempt(doc, p).None? && ImageAttempt(rendered, apiKeySet, p).Ok? && ImageAttempt(rendered, apiKeySet, p).value.rates != []
  {
    match TextAttempt(doc, p)
    case Some(x) => Ok(x)
    case None =>
      var x :- ImageAttempt(rendered, apiKeySet, p);
      if x.rates == [] then Err(NoRatesFound) else Ok(x)
  }

  /** The try block of process_content, None standing for the exception
      it catches. */
  method TryText(doc: PdfDoc, p: DateParser) returns (fromText: Option<Extraction>)
    ensures fromText == TextAttempt(doc, p)
  {
    fromText := None;
    if doc.Pdf? && doc.pages != [] {
      var extracted := ExtractDateTime(doc.pages[0], p, doc.creationDate);
      if extracted.Ok? {
        var referencePage := FindReferencePage(doc.pages);
        if referencePage.Some? {
          var ratesData := ExtractCurrencyRates(referencePage.value);
          fromText := Some(Extraction(TextPath, extracted.value, ratesData));
        }
      }
    }
  }

  /** process_content(file_content, save_file, output_dir): on success the
      sheet is merged into the CSV files (and its PDF archived when save_file
      is set); on failure nothing is written. */
  method ProcessContent(store: CsvStore, doc: PdfDoc, rendered: Option<seq<PageResponse>>, apiKeySet: bool,
                        p: DateParser, saveFile: bool, outputDir: string)
    returns (outcome: Result<Extraction, PipelineError>, archivedPdf: Option<string>)
    modifies store
    ensures outcome == Process(doc, rendered, apiKeySet, p)
    ensures outcome.Ok? ==> store.files == SaveAll(old(store.files), outputDir, outcome.value.when, outcome.value.rates)
    ensures outcome.Err? ==> store.files == old(store.files)
    ensures archivedPdf == if outcome.Ok? && saveFile then Some(PdfPath(outputDir, outcome.value.when)) else None
  {
    var fromText := TryText(doc, p);
    if fromText.Some? {
      outcome := Ok(fromText.value);
    } else {
      outcome := ProcessAsImage(rendered, apiKeySet, p);
      if outcome.Ok? && outcome.value.rates == [] {
        outcome := Err(NoRatesFound);
      }
    }
    archivedPdf := None;
    if outcome.Ok? {
      if saveFile {
        archivedPdf := Some(PdfPath(outputDir, outcome.value.when));
      }
      store.SaveToCsv(outcome.value.rates, outcome.value.when, outputDir);
    }
  }
}
