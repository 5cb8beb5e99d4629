/** The string operations of Python's str that the downloader relies on,
    stated over seq<char>. */
module Text {

  /** Whitespace as str.isspace, str.strip(), str.split() and the regular
      expression class \s (on str patterns) all agree to see it. */
  predicate IsSpace(c: char) {
    || c == ' '
    || ('\t' <= c <= '\r')
    || ('\U{1C}' <= c <= '\U{1F}')
    || c == '\U{85}' || c == '\U{A0}' || c == '\U{1680}'
    || ('\U{2000}' <= c <= '\U{200A}')
    || c == '\U{2028}' || c == '\U{2029}' || c == '\U{202F}'
    || c == '\U{205F}' || c == '\U{3000}'
  }

  /** An ASCII decimal digit (the regular expression \d and int() restricted to ASCII). */
  predicate IsDigit(c: char) {
    '0' <= c <= '9'
  }

  /** The regular expression class [A-Z]. */
  predicate IsUpper(c: char) {
    'A' <= c <= 'Z'
  }

  predicate AllDigits(s: string) {
    forall i | 0 <= i < |s| :: IsDigit(s[i])
  }

  function LowerChar(c: char): (d: char)
    ensures IsUpper(c) ==> d as int == c as int + 32
    ensures !IsUpper(c) ==> d == c
  {
    if IsUpper(c) then (c as int + 32) as char else c
  }

  /** str.lower() on the letters A-Z; every other character is kept. */
  function Lower(s: string): (r: string)
    ensures |r| == |s|
    ensures forall i | 0 <= i < |s| :: r[i] == LowerChar(s[i])
  {
    seq(|s|, i requires 0 <= i < |s| => LowerChar(s[i]))
  }

  /** str.startswith */
  predicate StartsWith(s: string, prefix: string) {
    |prefix| <= |s| && s[..|prefix|] == prefix
  }

  /** A prefix of a prefix is a prefix. */
  lemma StartsWithTrans(s: string, a: string, b: string)
    requires StartsWith(s, a) && StartsWith(a, b)
    ensures StartsWith(s, b)
  {
    assert s[..|b|] == s[..|a|][..|b|];
  }

  /** The `in` operator on two strings: prefix occurs somewhere in s. */
  predicate Contains(s: string, part: string)
    decreases |s|
  {
    StartsWith(s, part) || (s != [] && Contains(s[1..], part))
  }

  lemma {:induction false} ContainsAt(s: string, part: string, i: nat)
    requires i + |part| <= |s| && s[i..i + |part|] == part
    ensures Contains(s, part)
    decreases i
  {
    if i > 0 {
      assert s[1..][i - 1..i - 1 + |part|] == s[i..i + |part|];
      ContainsAt(s[1..], part, i - 1);
    } else {
      assert s[..|part|] == part;
    }
  }

  /** The leading whitespace of s removed. */
  function TrimStart(s: string): (r: string)
    ensures |r| <= |s| && r == s[|s| - |r|..]
    ensures forall i | 0 <= i < |s| - |r| :: IsSpace(s[i])
    ensures r == [] || !IsSpace(r[0])
    decreases |s|
  {
    if s != [] && IsSpace(s[0]) then TrimStart(s[1..]) else s
  }

  /** The trailing whitespace of s removed. */
  function TrimEnd(s: string): (r: string)
    ensures |r| <= |s| && r == s[..|r|]
    ensures forall i | |r| <= i < |s| :: IsSpace(s[i])
    ensures r == [] || !IsSpace(r[|r| - 1])
    decreases |s|
  {
    if s != [] && IsSpace(s[|s| - 1]) then TrimEnd(s[..|s| - 1]) else s
  }

  /** str.strip() with no argument. */
  function Strip(s: string): (r: string)
    ensures |r| <= |s|
    ensures r == [] || (!IsSpace(r[0]) && !IsSpace(r[|r| - 1]))
  {
    var t := TrimStart(s);
    var r := TrimEnd(t);
    assert r != [] ==> r[0] == t[0];
    r
  }

  /** Stripping keeps a leading run of non-whitespace. */
  lemma StripKeepsHead(s: string, w: string)
    requires StartsWith(s, w) && w != []
    requires forall i | 0 <= i < |w| :: !IsSpace(w[i])
    ensures StartsWith(Strip(s), w)
  {
    assert s[0] == w[0];
    assert TrimStart(s) == s;
    var r := TrimEnd(s);
    assert !IsSpace(s[|w| - 1]);
    assert r[..|w|] == s[..|w|];
  }

  /** Lower-casing keeps prefixes. */
  lemma LowerStartsWith(s: string, w: string)
    requires StartsWith(s, w)
    ensures StartsWith(Lower(s), Lower(w))
  {
    assert Lower(s)[..|w|] == Lower(w);
  }

  // ---------------------------------------------------------------------
  // str.split(sep) for a one-character separator, and its inverse sep.join

  /** str.split(sep): the pieces between the separators, "" giving [""]. */
  function Split(s: string, sep: char): (parts: seq<string>)
    ensures |parts| >= 1
    ensures forall i | 0 <= i < |parts| :: sep !in parts[i]
    decreases |s|
  {
    if s == [] then [[]]
    else
      var rest := Split(s[1..], sep);
      if s[0] == sep then [[]] + rest
      else [[s[0]] + rest[0]] + rest[1..]
  }

  /** sep.join(parts) */
  function Join(parts: seq<string>, sep: char): string
    decreases |parts|
  {
    if |parts| == 0 then []
    else if |parts| == 1 then parts[0]
    else parts[0] + [sep] + Join(parts[1..], sep)
  }

  lemma JoinCons(c: char, p: string, ps: seq<string>, sep: char)
    ensures Join([[c] + p] + ps, sep) == [c] + Join([p] + ps, sep)
  {
    assert ([[c] + p] + ps)[1..] == ps;
    assert ([p] + ps)[1..] == ps;
  }

  /** Splitting loses nothing: joining the pieces gives the text back. */
  lemma {:induction false} JoinSplit(s: string, sep: char)
    ensures Join(Split(s, sep), sep) == s
    decreases |s|
  {
    if s != [] {
      JoinSplit(s[1..], sep);
      var rest := Split(s[1..], sep);
      if s[0] == sep {
        assert ([[]] + rest)[1..] == rest;
      } else {
        assert rest == [rest[0]] + rest[1..];
        JoinCons(s[0], rest[0], rest[1..], sep);
      }
    }
  }

  /** A piece without the separator splits to itself. */
  lemma {:induction false} SplitNoSep(a: string, sep: char)
    requires sep !in a
    ensures Split(a, sep) == [a]
    decreases |a|
  {
    if a != [] {
      SplitNoSep(a[1..], sep);
      assert [a[0]] + a[1..] == a;
    }
  }

  /** Splitting at a separator splits the two sides independently. */
  lemma {:induction false} SplitConcat(a: string, b: string, sep: char)
    ensures Split(a + [sep] + b, sep) == Split(a, sep) + Split(b, sep)
    decreases |a|
  {
    var s := a + [sep] + b;
    if a == [] {
      assert s[1..] == b;
    } else {
      assert s[1..] == a[1..] + [sep] + b;
      SplitConcat(a[1..], b, sep);
      var ra := Split(a[1..], sep);
      assert ra == [ra[0]] + ra[1..];
    }
  }

  /** Splitting the pieces of a join gives the pieces back. */
  lemma {:induction false} SplitJoin(parts: seq<string>, sep: char)
    requires |parts| >= 1
    requires forall i | 0 <= i < |parts| :: sep !in parts[i]
    ensures Split(Join(parts, sep), sep) == parts
    decreases |parts|
  {
    if |parts| == 1 {
      SplitNoSep(parts[0], sep);
    } else {
      SplitJoin(parts[1..], sep);
      SplitConcat(parts[0], Join(parts[1..], sep), sep);
      SplitNoSep(parts[0], sep);
      assert parts == [parts[0]] + parts[1..];
    }
  }

  /** The first piece of p + s starts with p when p holds no separator. */
  lemma {:induction false} SplitFirstPiece(p: string, s: string, sep: char)
    requires sep !in p
    ensures StartsWith(Split(p + s, sep)[0], p)
    decreases |p|
  {
    if p != [] {
      assert (p + s)[1..] == p[1..] + s;
      SplitFirstPiece(p[1..], s, sep);
    }
  }

  // ---------------------------------------------------------------------
  // str.split() with no argument: the maximal runs of non-whitespace

  /** The length of the run of non-whitespace that s starts with. */
  function WordLen(s: string): (n: nat)
    requires s != [] && !IsSpace(s[0])
    ensures 0 < n <= |s|
    ensures forall i | 0 <= i < n :: !IsSpace(s[i])
    ensures n == |s| || IsSpace(s[n])
    decreases |s|
  {
    if |s| == 1 || IsSpace(s[1]) then 1 else 1 + WordLen(s[1..])
  }

  predicate IsWord(w: string) {
    w != [] && forall i | 0 <= i < |w| :: !IsSpace(w[i])
  }

  /** str.split(): the words of s, none empty, none holding whitespace. */
  function SplitWs(s: string): (words: seq<string>)
    ensures forall i | 0 <= i < |words| :: IsWord(words[i])
    decreases |s|
  {
    if s == [] then []
    else if IsSpace(s[0]) then SplitWs(s[1..])
    else
      var n := WordLen(s);
      [s[..n]] + SplitWs(s[n..])
  }

  lemma {:induction false} WordLenOfWord(w: string, rest: string)
    requires IsWord(w)
    requires rest == [] || IsSpace(rest[0])
    ensures WordLen(w + rest) == |w|
    decreases |w|
  {
    var s := w + rest;
    if |w| > 1 {
      assert s[1..] == w[1..] + rest;
      WordLenOfWord(w[1..], rest);
    }
  }

  /** A word followed by whitespace (or by nothing) is the first word. */
  lemma SplitWsWord(w: string, rest: string)
    requires IsWord(w)
    requires rest == [] || IsSpace(rest[0])
    ensures SplitWs(w + rest) == [w] + SplitWs(rest)
  {
    var s := w + rest;
    WordLenOfWord(w, rest);
    var n := WordLen(s);
    assert s[..n] == w;
    assert s[n..] == rest;
  }

  /** Leading whitespace does not change the words. */
  lemma SplitWsSpace(c: char, rest: string)
    requires IsSpace(c)
    ensures SplitWs([c] + rest) == SplitWs(rest)
  {
    assert ([c] + rest)[1..] == rest;
  }

  /** A slice cut around its character at b. */
  lemma SliceAround(s: string, a: nat, b: nat, c: nat)
    requires a <= b <= c <= |s|
    ensures b < c ==> s[a..c] == s[a..b] + ([s[b]] + s[b + 1..c])
    ensures s[a..c] == s[a..b] + s[b..c]
  {
  }

  /** A word, then whitespace: the word comes first. */
  lemma SplitWsWordSpace(w: string, c: char, rest: string)
    requires IsWord(w) && IsSpace(c)
    ensures SplitWs(w + ([c] + rest)) == [w] + SplitWs(rest)
  {
    SplitWsWord(w, [c] + rest);
    SplitWsSpace(c, rest);
  }

  /** Trailing whitespace does not change the words. */
  lemma {:induction false} SplitWsAppendSpace(s: string, c: char)
    requires IsSpace(c)
    ensures SplitWs(s + [c]) == SplitWs(s)
    decreases |s|
  {
    var t := s + [c];
    if s == [] {
      assert t == [c] + [];
      SplitWsSpace(c, []);
    } else if IsSpace(s[0]) {
      assert t[1..] == s[1..] + [c];
      SplitWsAppendSpace(s[1..], c);
    } else {
      var n := WordLen(s);
      var w, rest := s[..n], s[n..];
      assert IsWord(w);
      assert s == w + rest;
      SplitWsAppendSpace(rest, c);
      SplitWsWordAppend(w, rest, c);
    }
  }

  lemma SplitWsWordAppend(w: string, rest: string, c: char)
    requires IsWord(w) && IsSpace(c)
    requires rest == [] || IsSpace(rest[0])
    requires SplitWs(rest + [c]) == SplitWs(rest)
    ensures SplitWs(w + rest + [c]) == SplitWs(w + rest)
  {
    assert w + rest + [c] == w + (rest + [c]);
    SplitWsWord(w, rest + [c]);
    SplitWsWord(w, rest);
  }

  lemma {:induction false} SplitWsTrimStart(s: string)
    ensures SplitWs(TrimStart(s)) == SplitWs(s)
    decreases |s|
  {
    if s != [] && IsSpace(s[0]) {
      SplitWsTrimStart(s[1..]);
    }
  }

  lemma {:induction false} SplitWsTrimEnd(s: string)
    ensures SplitWs(TrimEnd(s)) == SplitWs(s)
    decreases |s|
  {
    if s != [] && IsSpace(s[|s| - 1]) {
      var init := s[..|s| - 1];
      SplitWsTrimEnd(init);
      assert s == init + [s[|s| - 1]];
      SplitWsAppendSpace(init, s[|s| - 1]);
    }
  }

  /** Stripping before str.split() changes nothing. */
  lemma SplitWsStrip(s: string)
    ensures SplitWs(Strip(s)) == SplitWs(s)
  {
    SplitWsTrimEnd(TrimStart(s));
    SplitWsTrimStart(s);
  }

  // ---------------------------------------------------------------------
  // Decimal numerals

  function DigitValue(c: char): (d: nat)
    requires IsDigit(c)
    ensures d < 10
  {
    c as int - '0' as int
  }

  function DigitChar(d: nat): (c: char)
    requires d < 10
    ensures IsDigit(c) && DigitValue(c) == d
  {
    ('0' as int + d) as char
  }

  /** The number an all-digit string denotes, as int() reads it. */
  function DigitsValue(s: string): nat
    requires AllDigits(s)
    decreases |s|
  {
    if s == [] then 0 else DigitsValue(s[..|s| - 1]) * 10 + DigitValue(s[|s| - 1])
  }

  /** str(n): the decimal numeral without leading zeros. */
  function Decimal(n: nat): (s: string)
    ensures s != [] && AllDigits(s)
    ensures DigitsValue(s) == n
    ensures s[0] == '0' ==> s == "0"
    decreases n
  {
    if n < 10 then [DigitChar(n)]
    else
      var s := Decimal(n / 10) + [DigitChar(n % 10)];
      assert s[..|s| - 1] == Decimal(n / 10);
      s
  }

  /** The zero-padded two-digit numeral of n (strftime's %m, %d, %H, %M). */
  function Pad2(n: nat): (s: string)
    requires n < 100
    ensures |s| == 2 && AllDigits(s)
    ensures DigitValue(s[0]) * 10 + DigitValue(s[1]) == n
  {
    [DigitChar(n / 10), DigitChar(n % 10)]
  }

  /** The zero-padded four-digit numeral of n (strftime's %Y). */
  function Pad4(n: nat): (s: string)
    requires n < 10000
    ensures |s| == 4 && AllDigits(s)
    ensures DigitValue(s[0]) * 1000 + DigitValue(s[1]) * 100 + DigitValue(s[2]) * 10 + DigitValue(s[3]) == n
  {
    var hi, lo := Pad2(n / 100), Pad2(n % 100);
    hi + lo
  }
}
