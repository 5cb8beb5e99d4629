/** Resolving the publication date and time of a rate sheet from its text
    (extract_date_time, parse_date and parse_time in sbi_forex_downloader.py).

    The fuzzy natural-language parser is not reproduced: it enters as a
    DateParser, three functions that give the day-first reading, the
    month-first reading and the time of a line. What is modelled and verified
    is the rule that picks the lines and decides between the two readings. */
module DateTimeResolver {
  import opened Wrappers
  import opened Text
  import opened Calendar

  /** dateutil.parser.parse with dayfirst=True, with the default month-first
      reading, and read for its time; None where the parser raises. */
  datatype DateParser = DateParser(
    dayFirst: string -> Option<Date>,
    monthFirst: string -> Option<Date>,
    timeOf: string -> Option<Time>)

  datatype Cause = UnparsableDate | AmbiguousDate | UnparsableTime

  /** The exceptions extract_date_time lets out: DateTimeExtractionError when a
      labelled line is missing, ValueError for everything parse_date and
      parse_time reject (the ambiguity error is raised inside parse_date's try
      block, so it too leaves as ValueError). */
  datatype Failure = DateTimeExtractionError | ValueError(cause: Cause)

  /** line.strip().lower().startswith(tag) */
  predicate IsLabelled(line: string, tag: string) {
    StartsWith(Lower(Strip(line)), tag)
  }

  /** The index of the first true flag. */
  function FirstTrue(flags: seq<bool>): (r: Option<nat>)
    ensures r.Some? ==> r.value < |flags| && flags[r.value]
    ensures r.Some? ==> forall k | 0 <= k < r.value :: !flags[k]
    ensures r.None? <==> forall k | 0 <= k < |flags| :: !flags[k]
    decreases |flags|
  {
    if flags == [] then None
    else if flags[0] then Some(0)
    else
      match FirstTrue(flags[1..])
      case None => None
      case Some(i) => Some(i + 1)
  }

  /** The index of the first labelled line: next() over the generator. */
  function FirstLabelled(lines: seq<string>, tag: string): (r: Option<nat>)
    ensures r.Some? ==> r.value < |lines| && IsLabelled(lines[r.value], tag)
    ensures r.Some? ==> forall k | 0 <= k < r.value :: !IsLabelled(lines[k], tag)
    ensures r.None? <==> forall k | 0 <= k < |lines| :: !IsLabelled(lines[k], tag)
  {
    var flags := seq(|lines|, k requires 0 <= k < |lines| => IsLabelled(lines[k], tag));
    assert forall k | 0 <= k < |lines| :: flags[k] == IsLabelled(lines[k], tag);
    FirstTrue(flags)
  }

  /** The day-first and the month-first reading both succeed and differ. */
  predicate Ambiguous(line: string, p: DateParser) {
    p.dayFirst(line).Some? && p.monthFirst(line).Some? && p.dayFirst(line) != p.monthFirst(line)
  }

  /** parse_date: accept the date both readings agree on; when they differ,
      accept the reference date only if it is one of them; never guess. */
  function ParseDate(line: string, p: DateParser, reference: Option<DateTime>): (r: Result<Date, Failure>)
    // every failure leaves as ValueError
    ensures r.Err? ==> r.error.ValueError?
    // a parser that raises on either reading fails the line
    ensures (p.dayFirst(line).None? || p.monthFirst(line).None?) ==> r == Err(ValueError(UnparsableDate))
    // agreeing readings are accepted whatever the reference says
    ensures p.dayFirst(line).Some? && p.dayFirst(line) == p.monthFirst(line) ==> r == Ok(p.dayFirst(line).value)
    // disagreeing readings: the reference date breaks the tie or nothing does
    ensures Ambiguous(line, p) ==>
      (r.Ok? <==> reference.Some? && (Some(reference.value.date) == p.dayFirst(line) || Some(reference.value.date) == p.monthFirst(line)))
    ensures Ambiguous(line, p) && r.Ok? ==> r.value == reference.value.date
    ensures Ambiguous(line, p) && r.Err? ==> r.error == ValueError(AmbiguousDate)
    // whatever is accepted is one of the two readings
    ensures r.Ok? ==> Some(r.value) == p.dayFirst(line) || Some(r.value) == p.monthFirst(line)
  {
    match (p.dayFirst(line), p.monthFirst(line))
    case (Some(dayFirst), Some(monthFirst)) =>
      if dayFirst != monthFirst then
        if reference.Some? && reference.value.date in {dayFirst, monthFirst} then Ok(reference.value.date)
        else Err(ValueError(AmbiguousDate))
      else Ok(dayFirst)
    case _ => Err(ValueError(UnparsableDate))
  }

  /** parse_time */
  function ParseTime(line: string, p: DateParser): (r: Result<Time, Failure>)
    ensures r.Ok? <==> p.timeOf(line).Some?
    ensures r.Ok? ==> r.value == p.timeOf(line).value
    ensures r.Err? ==> r.error == ValueError(UnparsableTime)
  {
    match p.timeOf(line)
    case Some(t) => Ok(t)
    case None => Err(ValueError(UnparsableTime))
  }

  /** extract_date_time: the first "date" line and the first "time" line of
      the text, parsed and combined. */
  function ExtractDateTime(text: string, p: DateParser, reference: Option<DateTime>): (r: Result<DateTime, Failure>)
    ensures var lines := Split(text, '\n');
      r == Err(DateTimeExtractionError) <==>
        (forall k | 0 <= k < |lines| :: !IsLabelled(lines[k], "date")) ||
        (forall k | 0 <= k < |lines| :: !IsLabelled(lines[k], "time"))
    ensures var lines := Split(text, '\n');
      r.Ok? ==>
        var d, t := FirstLabelled(lines, "date").value, FirstLabelled(lines, "time").value;
        && ParseDate(lines[d], p, reference) == Ok(r.value.date)
        && p.timeOf(lines[t]) == Some(r.value.time)
    ensures var lines := Split(text, '\n');
      r.Err? && r.error.ValueError? ==>
        var d, t := FirstLabelled(lines, "date").value, FirstLabelled(lines, "time").value;
        ParseDate(lines[d], p, reference).Err? || p.timeOf(lines[t]).None?
  {
    var lines := Split(text, '\n');
    var dateLine, timeLine := FirstLabelled(lines, "date"), FirstLabelled(lines, "time");
    if dateLine.None? || timeLine.None? then Err(DateTimeExtractionError)
    else
      var d :- ParseDate(lines[dateLine.value], p, reference);
      var t :- ParseTime(lines[timeLine.value], p);
      Ok(DateTime(d, t))
  }
}
