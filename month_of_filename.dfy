/** extract_month_from_filename (one_time_downloader.py, lines 74-99): the
    month directory a downloaded sheet is filed under, read from a DDMMYYYY
    group in its file name.

    str.isdigit and int() consult Unicode's character tables, which are not
    reproduced here: they enter as a DigitTable, constrained only where the
    tables are certain (ASCII, and that every decimal digit is a digit). */
module FilenameMonth {
  import opened Wrappers
  import opened Text

  /** str.isdigit on one character, and the value int() gives a character
      it accepts as a decimal digit (None where int() raises). */
  datatype DigitTable = DigitTable(isDigit: char -> bool, decimal: char -> Option<nat>)

  /** What Python's tables guarantee: every decimal digit is a digit with a
      value below ten, and on ASCII the digits are exactly 0-9 with their
      usual values. */
  predicate ValidTable(t: DigitTable) {
    && (forall c :: t.decimal(c).Some? ==> t.isDigit(c) && t.decimal(c).value < 10)
    && (forall c | c < 128 as char :: t.isDigit(c) <==> IsDigit(c))
    && (forall c | IsDigit(c) :: t.decimal(c) == Some(DigitValue(c)))
  }

  /** part.isdigit(): non-empty and every character a digit. */
  predicate IsDigitText(t: DigitTable, part: string) {
    part != [] && forall i | 0 <= i < |part| :: t.isDigit(part[i])
  }

  /** datetime(2020, m, 1).strftime('%B') for m = 1..12, in the C locale. */
  const MonthNames: seq<string> := [
    "January", "February", "March", "April", "May", "June",
    "July", "August", "September", "October", "November", "December"]

  const Fallback := "January"

  /** What the loop body makes of one part of the name. */
  datatype Verdict =
    | NotADate            // shorter than eight characters or not all digits
    | NoMonth             // int(part[2:4]) is 0 or above 12
    | MonthOf(n: nat)     // int(part[2:4]) is n, a month number
    | Raises              // int(part[2:4]) raises: a digit that is not decimal

  function Judge(t: DigitTable, part: string): (v: Verdict)
    ensures v.MonthOf? ==> 1 <= v.n <= 12
    ensures v == NotADate <==> !(|part| >= 8 && IsDigitText(t, part))
  {
    if |part| >= 8 && IsDigitText(t, part) then
      match (t.decimal(part[2]), t.decimal(part[3]))
      case (Some(a), Some(b)) =>
        if 1 <= 10 * a + b <= 12 then MonthOf(10 * a + b) else NoMonth
      case _ => Raises
    else NotADate
  }

  /** A verdict the loop moves past. */
  predicate Passes(v: Verdict) {
    v == NotADate || v == NoMonth
  }

  /** The loop over the parts with its early returns; a part that raises
      ends the search in the except clause, with January. */
  function Scan(t: DigitTable, parts: seq<string>): (name: string)
    ensures name in MonthNames
    decreases |parts|
  {
    if parts == [] then Fallback
    else
      match Judge(t, parts[0])
      case MonthOf(n) => MonthNames[n - 1]
      case Raises => Fallback
      case _ => Scan(t, parts[1..])
  }

  /** extract_month_from_filename */
  function MonthFromFilename(t: DigitTable, filename: string): (name: string)
    ensures name in MonthNames
    ensures '_' !in filename ==> name == Fallback
  {
    if '_' !in filename then Fallback else Scan(t, Split(filename, '_'))
  }

  /** The same loop, as one_time_downloader.py writes it (lines 85-99). */
  method ExtractMonthFromFilename(t: DigitTable, filename: string) returns (monthName: string)
    ensures monthName == MonthFromFilename(t, filename)
  {
    if '_' !in filename {
      return Fallback;
    }
    var parts := Split(filename, '_');
    for i := 0 to |parts|
      invariant Scan(t, parts[i..]) == Scan(t, parts)
    {
      assert parts[i..][1..] == parts[i + 1..];
      if |parts[i]| >= 8 && IsDigitText(t, parts[i]) {
        var tens, units := t.decimal(parts[i][2]), t.decimal(parts[i][3]);
        if tens.None? || units.None? {
          return Fallback;
        }
        var monthNum := 10 * tens.value + units.value;
        if 1 <= monthNum <= 12 {
          return MonthNames[monthNum - 1];
        }
      }
    }
    return Fallback;
  }

  /** Parts the loop moves past do not change the answer. */
  lemma {:induction false} ScanSkips(t: DigitTable, skipped: seq<string>, rest: seq<string>)
    requires forall k | 0 <= k < |skipped| :: Passes(Judge(t, skipped[k]))
    ensures Scan(t, skipped + rest) == Scan(t, rest)
    decreases |skipped|
  {
    if skipped == [] {
      assert skipped + rest == rest;
    } else {
      assert (skipped + rest)[0] == skipped[0] && Passes(Judge(t, skipped[0]));
      assert (skipped + rest)[1..] == skipped[1..] + rest;
      assert forall k | 0 <= k < |skipped| - 1 :: skipped[1..][k] == skipped[k + 1];
      ScanSkips(t, skipped[1..], rest);
    }
  }

  /** The name is the month of the first part that gives one, provided every
      earlier part was moved past; with no such part it is January. */
  lemma {:induction false} ScanFirstMonth(t: DigitTable, parts: seq<string>, i: nat)
    requires i <= |parts|
    requires forall k | 0 <= k < i :: Passes(Judge(t, parts[k]))
    ensures i < |parts| && Judge(t, parts[i]).MonthOf? ==> Scan(t, parts) == MonthNames[Judge(t, parts[i]).n - 1]
    ensures i == |parts| ==> Scan(t, parts) == Fallback
  {
    ScanSkips(t, parts[..i], parts[i..]);
    assert parts[..i] + parts[i..] == parts;
  }

  /** Over a valid table, only a non-ASCII digit in the month position can
      make int() raise. */
  lemma RaisesOnlyOnNonAscii(t: DigitTable, part: string)
    requires ValidTable(t)
    requires Judge(t, part) == Raises
    ensures part[2] >= 128 as char || part[3] >= 128 as char
  {
    assert t.isDigit(part[2]) && t.isDigit(part[3]);
    assert part[2] < 128 as char ==> t.decimal(part[2]).Some?;
    assert part[3] < 128 as char ==> t.decimal(part[3]).Some?;
  }

  /** An eight-digit ASCII group DDMMYYYY with MM in 01..12 gives month MM. */
  lemma AsciiDateGroup(t: DigitTable, part: string)
    requires ValidTable(t)
    requires |part| >= 8 && forall i | 0 <= i < |part| :: IsDigit(part[i])
    ensures var n := 10 * DigitValue(part[2]) + DigitValue(part[3]);
      Judge(t, part) == if 1 <= n <= 12 then MonthOf(n) else NoMonth
  {
    assert forall i | 0 <= i < |part| :: t.isDigit(part[i]);
    assert t.decimal(part[2]) == Some(DigitValue(part[2]));
    assert t.decimal(part[3]) == Some(DigitValue(part[3]));
  }

  /** The parts of the file name in the comment at one_time_downloader.py
      lines 78-79, SBI_FOREX_CARD_RATES_12052025_0430.pdf. */
  const ExampleParts: seq<string> := ["SBI", "FOREX", "CARD", "RATES", "12052025", "0430.pdf"]

  /** That file name: its parts joined by underscores. */
  function ExampleFilename(): string {
    Join(ExampleParts, '_')
  }

  lemma ExampleSplit()
    ensures '_' in ExampleFilename()
    ensures Split(ExampleFilename(), '_') == ExampleParts
  {
    var parts := ExampleParts;
    assert ExampleFilename() == parts[0] + ['_'] + Join(parts[1..], '_');
    assert ExampleFilename()[3] == '_';
    assert forall i | 0 <= i < |parts| :: '_' !in parts[i];
    SplitJoin(parts, '_');
  }

  /** Its date group: day 12, month 05, year 2025. */
  lemma ExampleGroup(t: DigitTable)
    requires ValidTable(t)
    ensures Judge(t, "12052025") == MonthOf(5)
  {
    var g := "12052025";
    assert IsDigit(g[0]) && IsDigit(g[1]) && IsDigit(g[2]) && IsDigit(g[3]);
    assert IsDigit(g[4]) && IsDigit(g[5]) && IsDigit(g[6]) && IsDigit(g[7]);
    AsciiDateGroup(t, g);
    assert DigitValue(g[2]) == 0 && DigitValue(g[3]) == 5;
  }

  /** Its parts lead the loop to May. */
  lemma ExampleScan(t: DigitTable)
    requires ValidTable(t)
    ensures Scan(t, ExampleParts) == "May"
  {
    var parts := ExampleParts;
    ExampleGroup(t);
    assert forall k | 0 <= k < 4 :: |parts[k]| < 8;
    ScanFirstMonth(t, parts, 4);
  }

  /** The file name of the comment in one_time_downloader.py is filed under May. */
  lemma ExampleName(t: DigitTable)
    requires ValidTable(t)
    ensures MonthFromFilename(t, ExampleFilename()) == "May"
  {
    ExampleSplit();
    ExampleScan(t);
  }
}
