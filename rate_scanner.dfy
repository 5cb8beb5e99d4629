/** The currency-line scanner (extract_currency_rates in
    sbi_forex_downloader.py): each line of a page is searched for

        ([A-Z]{3})\/INR\s*((?:\d+(?:\.\d+)?\s?)+)

    and a match contributes the code and the whitespace-split rate tokens.
    The regular expression is matched by hand, with the greedy semantics of
    Python's re.search: the first start position wins, \s* takes all the
    whitespace, every repetition of the number group takes as much as it can. */
module RateScanner {
  import opened Wrappers
  import opened Text

  /** {"currency_code": code, "rates": rates} */
  datatype RateRecord = RateRecord(code: string, rates: seq<string>)

  /** A rate token as the pattern admits it: digits, or digits "." digits. */
  predicate IsNumber(t: string) {
    || (t != [] && AllDigits(t))
    || (exists i | 0 < i < |t| - 1 :: t[i] == '.' && AllDigits(t[..i]) && AllDigits(t[i + 1..]))
  }

  /** What every emitted record looks like: a code of three letters A-Z and
      at least one rate token. */
  predicate WellFormed(r: RateRecord) {
    && |r.code| == 3
    && (forall i | 0 <= i < 3 :: IsUpper(r.code[i]))
    && |r.rates| >= 1
    && (forall i | 0 <= i < |r.rates| :: IsNumber(r.rates[i]))
  }

  /** \s* from j: the first position at or after j that is not whitespace. */
  function SkipSpaces(line: string, j: nat): (k: nat)
    requires j <= |line|
    ensures j <= k <= |line|
    ensures forall i | j <= i < k :: IsSpace(line[i])
    ensures k == |line| || !IsSpace(line[k])
    decreases |line| - j
  {
    if j < |line| && IsSpace(line[j]) then SkipSpaces(line, j + 1) else j
  }

  /** \d* from j, greedily: the first position at or after j that is not a digit. */
  function DigitsEnd(line: string, j: nat): (k: nat)
    requires j <= |line|
    ensures j <= k <= |line|
    ensures AllDigits(line[j..k])
    ensures k == |line| || !IsDigit(line[k])
    decreases |line| - j
  {
    if j < |line| && IsDigit(line[j]) then DigitsEnd(line, j + 1) else j
  }

  /** \d+(?:\.\d+)? from a digit at j, greedily: where the token ends. */
  function NumberEnd(line: string, j: nat): (k: nat)
    requires j < |line| && IsDigit(line[j])
    ensures j < k <= |line|
    ensures IsNumber(line[j..k])
  {
    var e := DigitsEnd(line, j);
    if e + 1 < |line| && line[e] == '.' && IsDigit(line[e + 1]) then
      var k := DigitsEnd(line, e + 1);
      assert line[j..k][..e - j] == line[j..e];
      assert line[j..k][e - j + 1..] == line[e + 1..k];
      k
    else e
  }

  /** Group 2, ((?:\d+(?:\.\d+)?\s?)+), from a digit at j: where it ends.
      A repetition may end in one whitespace character; another repetition
      follows only if a digit comes next, so two spaces end the group. */
  function RunEnd(line: string, j: nat): (k: nat)
    requires j < |line| && IsDigit(line[j])
    ensures j < k <= |line|
    decreases |line| - j
  {
    var e := NumberEnd(line, j);
    if e < |line| && IsSpace(line[e]) then
      if e + 1 < |line| && IsDigit(line[e + 1]) then RunEnd(line, e + 1) else e + 1
    else e
  }

  /** The number tokens of that group, in order. */
  function RunTokens(line: string, j: nat): (tokens: seq<string>)
    requires j < |line| && IsDigit(line[j])
    ensures |tokens| >= 1
    ensures forall i | 0 <= i < |tokens| :: IsNumber(tokens[i])
    decreases |line| - j
  {
    var e := NumberEnd(line, j);
    [line[j..e]] +
      (if e + 1 < |line| && IsSpace(line[e]) && IsDigit(line[e + 1]) then RunTokens(line, e + 1) else [])
  }

  lemma NumberIsWord(t: string)
    requires IsNumber(t)
    ensures IsWord(t)
  {
    forall i | 0 <= i < |t|
      ensures !IsSpace(t[i])
    {
      if !(t != [] && AllDigits(t)) {
        var d :| 0 < d < |t| - 1 && t[d] == '.' && AllDigits(t[..d]) && AllDigits(t[d + 1..]);
        if i < d {
          assert t[..d][i] == t[i];
        } else if i > d {
          assert t[d + 1..][i - d - 1] == t[i];
        }
      }
    }
  }

  /** Stripping and splitting the captured group gives exactly its tokens. */
  lemma {:induction false} RunSplits(line: string, j: nat)
    requires j < |line| && IsDigit(line[j])
    ensures SplitWs(line[j..RunEnd(line, j)]) == RunTokens(line, j)
    decreases |line| - j
  {
    var e := NumberEnd(line, j);
    var k := RunEnd(line, j);
    var tok := line[j..e];
    NumberIsWord(tok);
    if e + 1 < |line| && IsSpace(line[e]) && IsDigit(line[e + 1]) {
      assert k == RunEnd(line, e + 1);
      assert RunTokens(line, j) == [tok] + RunTokens(line, e + 1);
      RunSplits(line, e + 1);
      SliceAround(line, j, e, k);
      SplitWsWordSpace(tok, line[e], line[e + 1..k]);
    } else if e < |line| && IsSpace(line[e]) {
      assert k == e + 1;
      assert RunTokens(line, j) == [tok];
      SliceAround(line, j, e, k);
      SplitWsWordSpace(tok, line[e], []);
    } else {
      assert k == e;
      assert RunTokens(line, j) == [tok];
      assert tok + [] == tok;
      SplitWsWord(tok, []);
    }
  }

  /** The whole pattern matches with its first group at position i. */
  predicate MatchesAt(line: string, i: nat) {
    && i + 7 <= |line|
    && IsUpper(line[i]) && IsUpper(line[i + 1]) && IsUpper(line[i + 2])
    && line[i + 3..i + 7] == "/INR"
    && var j := SkipSpaces(line, i + 7);
       j < |line| && IsDigit(line[j])
  }

  /** re.search from position i on: the first position where the pattern matches. */
  function SearchFrom(line: string, i: nat): (r: Option<nat>)
    requires i <= |line|
    ensures r.Some? ==> i <= r.value && MatchesAt(line, r.value)
    ensures r.Some? ==> forall k | i <= k < r.value :: !MatchesAt(line, k)
    ensures r.None? ==> forall k | i <= k :: !MatchesAt(line, k)
    decreases |line| - i
  {
    if MatchesAt(line, i) then Some(i)
    else if i == |line| then None
    else SearchFrom(line, i + 1)
  }

  /** re.search finds the pattern somewhere in the line. */
  ghost predicate Matches(line: string) {
    exists i :: MatchesAt(line, i)
  }

  /** The record a match at i yields: the first group, and the second group
      stripped and split on whitespace. */
  function RecordAt(line: string, i: nat): (r: RateRecord)
    requires MatchesAt(line, i)
  {
    var j := SkipSpaces(line, i + 7);
    RateRecord(line[i..i + 3], SplitWs(Strip(line[j..RunEnd(line, j)])))
  }

  /** The record of a match: the code and the number tokens of group 2. */
  lemma RecordAtRates(line: string, i: nat)
    requires MatchesAt(line, i)
    ensures RecordAt(line, i) == RateRecord(line[i..i + 3], RunTokens(line, SkipSpaces(line, i + 7)))
  {
    var j := SkipSpaces(line, i + 7);
    SplitWsStrip(line[j..RunEnd(line, j)]);
    RunSplits(line, j);
  }

  /** A record made of a match's code and number tokens is well formed. */
  lemma MatchRecordWellFormed(line: string, i: nat)
    requires MatchesAt(line, i)
    ensures WellFormed(RateRecord(line[i..i + 3], RunTokens(line, SkipSpaces(line, i + 7))))
  {
  }

  /** A match yields a well-formed record. */
  lemma RecordAtWellFormed(line: string, i: nat)
    requires MatchesAt(line, i)
    ensures WellFormed(RecordAt(line, i))
  {
    RecordAtRates(line, i);
    MatchRecordWellFormed(line, i);
  }

  /** The code of a match is immediately followed by "/INR" in the line. */
  lemma RecordAtCode(line: string, i: nat)
    requires MatchesAt(line, i)
    ensures Contains(line, RecordAt(line, i).code + "/INR")
  {
    var code := line[i..i + 3];
    assert RecordAt(line, i).code == code;
    SliceAround(line, i, i + 3, i + 7);
    ContainsAt(line, line[i..i + 7], i);
  }

  /** One line of extract_currency_rates: the record of its first match. */
  function ScanLine(line: string): (r: Option<RateRecord>)
    ensures r.Some? <==> Matches(line)
    ensures r.Some? ==> WellFormed(r.value) && Contains(line, r.value.code + "/INR")
  {
    match SearchFrom(line, 0)
    case None => None
    case Some(i) =>
      RecordAtWellFormed(line, i);
      RecordAtCode(line, i);
      Some(RecordAt(line, i))
  }

  /** The records of a sequence of lines, one per matching line, in line order. */
  function CurrencyRecords(lines: seq<string>): (records: seq<RateRecord>)
    ensures |records| <= |lines|
    ensures forall k | 0 <= k < |records| :: WellFormed(records[k])
    decreases |lines|
  {
    if lines == [] then []
    else
      var init := CurrencyRecords(lines[..|lines| - 1]);
      match ScanLine(lines[|lines| - 1])
      case None => init
      case Some(r) => init + [r]
  }

  /** The records of two runs of lines are the records of each, in order. */
  lemma {:induction false} CurrencyRecordsAppend(a: seq<string>, b: seq<string>)
    ensures CurrencyRecords(a + b) == CurrencyRecords(a) + CurrencyRecords(b)
    decreases |b|
  {
    if b != [] {
      var b' := b[..|b| - 1];
      assert (a + b)[..|a + b| - 1] == a + b';
      assert (a + b)[|a + b| - 1] == b[|b| - 1];
      CurrencyRecordsAppend(a, b');
    } else {
      assert a + b == a;
    }
  }

  /** A single line contributes its match, or nothing. */
  lemma CurrencyRecordsOfLine(line: string)
    ensures CurrencyRecords([line]) == if ScanLine(line).Some? then [ScanLine(line).value] else []
  {
    assert [line][..0] == [];
  }

  /** Text without a matching line yields no records, and only such text. */
  lemma {:induction false} CurrencyRecordsEmpty(lines: seq<string>)
    ensures CurrencyRecords(lines) == [] <==> forall k | 0 <= k < |lines| :: !Matches(lines[k])
    decreases |lines|
  {
    if lines != [] {
      var init, last := lines[..|lines| - 1], lines[|lines| - 1];
      CurrencyRecordsEmpty(init);
      assert forall k | 0 <= k < |init| :: init[k] == lines[k];
    }
  }

  /** extract_currency_rates: scan the text line by line and collect the records. */
  method ExtractCurrencyRates(text: string) returns (rates: seq<RateRecord>)
    ensures rates == CurrencyRecords(Split(text, '\n'))
  {
    var lines := Split(text, '\n');
    rates := [];
    for n := 0 to |lines|
      invariant rates == CurrencyRecords(lines[..n])
    {
      assert lines[..n + 1][..n] == lines[..n];
      var found := ScanLine(lines[n]);
      if found.Some? {
        rates := rates + [found.value];
      }
    }
    assert lines[..|lines|] == lines;
  }
}
