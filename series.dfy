/** The per-currency rate series and the merge that save_to_csv performs on
    it (sbi_forex_downloader.py, lines 160-178): append the new row, keep one
    row per DATE (the last one, as the dict comprehension does), and sort
    ascending by timestamp. */
module Series {
  import opened Wrappers
  import opened Calendar

  /** One row of a currency file: the DATE column (the rendering of stamp),
      the PDF FILE column and the rate columns in TABLE_COLUMNS order. */
  datatype Row = Row(stamp: Stamp, pdfFile: string, rates: seq<string>)

  /** The DATE column of a row. */
  function DateCell(r: Row): string {
    FormatStamp(r.stamp)
  }

  /** The invariant of a stored series: sorted strictly ascending by timestamp,
      hence at most one row per timestamp. */
  predicate StrictlyAscending(rows: seq<Row>) {
    forall i, j | 0 <= i < j < |rows| :: Before(rows[i].stamp, rows[j].stamp)
  }

  predicate DistinctStamps(rows: seq<Row>) {
    forall i, j | 0 <= i < j < |rows| :: rows[i].stamp != rows[j].stamp
  }

  /** Rows are grouped by their DATE text; since that text determines the
      timestamp, grouping by timestamp is the same grouping. */
  lemma SameDateCellSameStamp(a: Row, b: Row)
    ensures DateCell(a) == DateCell(b) <==> a.stamp == b.stamp
  {
    FormatStampInjective(a.stamp, b.stamp);
  }

  /** The last row with timestamp k: the value a dict keyed by DATE keeps. */
  function LatestFor(rows: seq<Row>, k: Stamp): (r: Option<Row>)
    ensures r.Some? ==> r.value in rows && r.value.stamp == k
    ensures r.None? <==> forall i | 0 <= i < |rows| :: rows[i].stamp != k
    decreases |rows|
  {
    if rows == [] then None
    else if rows[|rows| - 1].stamp == k then Some(rows[|rows| - 1])
    else
      var r := LatestFor(rows[..|rows| - 1], k);
      assert forall i | 0 <= i < |rows| - 1 :: rows[..|rows| - 1][i] == rows[i];
      r
  }

  lemma LatestForAppend(rows: seq<Row>, x: Row, k: Stamp)
    ensures LatestFor(rows + [x], k) == if x.stamp == k then Some(x) else LatestFor(rows, k)
  {
    assert (rows + [x])[..|rows|] == rows;
  }

  /** In a series with one row per timestamp, that row is the latest one. */
  lemma {:induction false} LatestForDistinct(rows: seq<Row>, y: Row)
    requires DistinctStamps(rows)
    ensures LatestFor(rows, y.stamp) == Some(y) <==> y in rows
    decreases |rows|
  {
    if rows != [] {
      var init, last := rows[..|rows| - 1], rows[|rows| - 1];
      assert rows == init + [last];
      LatestForAppend(init, last, y.stamp);
      LatestForDistinct(init, y);
    }
  }

  /** The position of the row with timestamp k, if any. */
  function IndexOfStamp(rows: seq<Row>, k: Stamp): (r: Option<nat>)
    ensures r.Some? ==> r.value < |rows| && rows[r.value].stamp == k
    ensures r.None? ==> forall i | 0 <= i < |rows| :: rows[i].stamp != k
    decreases |rows|
  {
    if rows == [] then None
    else if rows[0].stamp == k then Some(0)
    else
      match IndexOfStamp(rows[1..], k)
      case None => None
      case Some(i) => Some(i + 1)
  }

  /** list({v["DATE"]: v for v in rows}.values()): a DATE keeps the position
      where it first appears and the value of its last row. */
  function Dedup(rows: seq<Row>): (u: seq<Row>)
    decreases |rows|
  {
    if rows == [] then []
    else
      var d := Dedup(rows[..|rows| - 1]);
      var x := rows[|rows| - 1];
      match IndexOfStamp(d, x.stamp)
      case Some(i) => d[i := x]
      case None => d + [x]
  }

  /** The dict comprehension keeps exactly the latest row of every timestamp. */
  lemma {:induction false} DedupKeepsLatest(rows: seq<Row>)
    ensures DistinctStamps(Dedup(rows))
    ensures forall y :: y in Dedup(rows) <==> LatestFor(rows, y.stamp) == Some(y)
    decreases |rows|
  {
    if rows != [] {
      var init, x := rows[..|rows| - 1], rows[|rows| - 1];
      assert rows == init + [x];
      DedupKeepsLatest(init);
      var d := Dedup(init);
      var u := Dedup(rows);
      match IndexOfStamp(d, x.stamp)
      case Some(i) =>
        assert u == d[i := x];
        forall y
          ensures y in u <==> LatestFor(rows, y.stamp) == Some(y)
        {
          LatestForAppend(init, x, y.stamp);
          ReplaceMembers(d, i, x, y);
        }
      case None =>
        assert u == d + [x];
        forall y
          ensures y in u <==> LatestFor(rows, y.stamp) == Some(y)
        {
          LatestForAppend(init, x, y.stamp);
        }
    }
  }

  /** Replacing the row of x's timestamp in a series with one row per
      timestamp: x is in, the old row is out, the others stay. */
  lemma ReplaceMembers(d: seq<Row>, i: nat, x: Row, y: Row)
    requires DistinctStamps(d) && i < |d| && d[i].stamp == x.stamp
    ensures y in d[i := x] <==> y == x || (y in d && y.stamp != x.stamp)
  {
    var u := d[i := x];
    assert u[i] == x;
    if y in u && y != x {
      var j :| 0 <= j < |u| && u[j] == y;
      assert j != i && d[j] == y;
      if j < i {
        assert d[j].stamp != d[i].stamp;
      } else {
        assert d[i].stamp != d[j].stamp;
      }
    }
    if y in d && y.stamp != x.stamp {
      var j :| 0 <= j < |d| && d[j] == y;
      assert u[j] == y;
    }
  }

  /** Prepending a row earlier than every row keeps a series ascending. */
  lemma AscendingCons(a: Row, t: seq<Row>)
    requires StrictlyAscending(t)
    requires forall j | 0 <= j < |t| :: Before(a.stamp, t[j].stamp)
    ensures StrictlyAscending([a] + t)
  {
    var r := [a] + t;
    forall i, j | 0 <= i < j < |r|
      ensures Before(r[i].stamp, r[j].stamp)
    {
      if i > 0 {
        assert r[i] == t[i - 1] && r[j] == t[j - 1];
      } else {
        assert r[j] == t[j - 1];
      }
    }
  }

  /** Insertion of x into an ascending series that lacks its timestamp. */
  function Insert(x: Row, s: seq<Row>): (r: seq<Row>)
    requires StrictlyAscending(s)
    requires forall i | 0 <= i < |s| :: s[i].stamp != x.stamp
    ensures |r| == |s| + 1
    ensures forall y :: y in r <==> y == x || y in s
    ensures StrictlyAscending(r)
    decreases |s|
  {
    if s == [] then [x]
    else if Before(x.stamp, s[0].stamp) then
      forall j | 0 <= j < |s|
        ensures Before(x.stamp, s[j].stamp)
      {
        BeforeIsStrictTotalOrder(x.stamp, s[0].stamp, s[j].stamp);
      }
      AscendingCons(x, s);
      [x] + s
    else
      var t := Insert(x, s[1..]);
      BeforeIsStrictTotalOrder(x.stamp, s[0].stamp, x.stamp);
      forall j | 0 <= j < |t|
        ensures Before(s[0].stamp, t[j].stamp)
      {
        assert t[j] in t;
        if t[j] != x {
          var k :| 0 <= k < |s[1..]| && s[1..][k] == t[j];
          assert s[k + 1] == t[j];
        }
      }
      AscendingCons(s[0], t);
      assert s == [s[0]] + s[1..];
      [s[0]] + t
  }

  /** rows_uniq.sort(key=timestamp), for the distinct timestamps it is given:
      an ascending arrangement of the same rows. With distinct timestamps the
      rows are distinct, so same length and same rows make a permutation. */
  function SortByStamp(s: seq<Row>): (r: seq<Row>)
    requires DistinctStamps(s)
    ensures |r| == |s|
    ensures forall y :: y in r <==> y in s
    ensures StrictlyAscending(r)
    decreases |s|
  {
    if s == [] then []
    else
      assert DistinctStamps(s[1..]) by {
        forall i, j | 0 <= i < j < |s| - 1
          ensures s[1..][i].stamp != s[1..][j].stamp
        {
          assert s[i + 1].stamp != s[j + 1].stamp;
        }
      }
      var t := SortByStamp(s[1..]);
      forall i | 0 <= i < |t|
        ensures t[i].stamp != s[0].stamp
      {
        assert t[i] in t;
        var k :| 0 <= k < |s[1..]| && s[1..][k] == t[i];
        assert s[k + 1] == t[i];
      }
      assert s == [s[0]] + s[1..];
      Insert(s[0], t)
  }

  /** The merge of save_to_csv: append, deduplicate by DATE, sort. */
  function Merge(rows: seq<Row>, newRow: Row): (r: seq<Row>)
    ensures StrictlyAscending(r)
    ensures forall y :: y in r <==> LatestFor(rows + [newRow], y.stamp) == Some(y)
  {
    var all := rows + [newRow];
    DedupKeepsLatest(all);
    var u := Dedup(all);
    SortByStamp(u)
  }

  /** Every row of an ascending series is its first row or later than it. */
  lemma AscendingHead(a: seq<Row>, y: Row)
    requires StrictlyAscending(a) && y in a
    ensures y == a[0] || Before(a[0].stamp, y.stamp)
  {
    var k :| 0 <= k < |a| && a[k] == y;
    assert k == 0 || Before(a[0].stamp, a[k].stamp);
  }

  /** The rest of an ascending series is every row but the first. */
  lemma AscendingTail(a: seq<Row>, y: Row)
    requires StrictlyAscending(a) && a != []
    ensures y in a[1..] <==> y in a && y != a[0]
  {
    BeforeIsStrictTotalOrder(y.stamp, y.stamp, y.stamp);
    assert a == [a[0]] + a[1..];
    assert y in a[1..] ==> exists k | 1 <= k < |a| :: a[k] == y && Before(a[0].stamp, a[k].stamp);
  }

  /** Two ascending series with the same rows are the same series. */
  lemma {:induction false} AscendingUnique(a: seq<Row>, b: seq<Row>)
    requires StrictlyAscending(a) && StrictlyAscending(b)
    requires forall y :: y in a <==> y in b
    ensures a == b
    decreases |a|
  {
    assert a != [] ==> a[0] in b;
    assert b != [] ==> b[0] in a;
    if a != [] && b != [] {
      // the first row of each is the earliest row of both
      AscendingHead(b, a[0]);
      AscendingHead(a, b[0]);
      BeforeIsStrictTotalOrder(a[0].stamp, b[0].stamp, a[0].stamp);
      forall y
        ensures y in a[1..] <==> y in b[1..]
      {
        AscendingTail(a, y);
        AscendingTail(b, y);
      }
      AscendingUnique(a[1..], b[1..]);
      assert a == [a[0]] + a[1..];
      assert b == [b[0]] + b[1..];
    }
  }

  /** An ascending series has one row per timestamp. */
  lemma AscendingDistinct(rows: seq<Row>)
    requires StrictlyAscending(rows)
    ensures DistinctStamps(rows)
  {
    forall i, j | 0 <= i < j < |rows|
      ensures rows[i].stamp != rows[j].stamp
    {
      BeforeIsStrictTotalOrder(rows[i].stamp, rows[j].stamp, rows[i].stamp);
    }
  }

  /** Reference definition of storing a row in an ascending series: walk to
      its place, replacing the row of the same timestamp if there is one. */
  function Upsert(s: seq<Row>, n: Row): seq<Row>
    decreases |s|
  {
    if s == [] then [n]
    else if s[0].stamp == n.stamp then [n] + s[1..]
    else if Before(n.stamp, s[0].stamp) then [n] + s
    else [s[0]] + Upsert(s[1..], n)
  }

  /** Upsert keeps a series ascending, adds the new row and drops exactly the
      row it supersedes. */
  lemma {:induction false} UpsertShape(s: seq<Row>, n: Row)
    requires StrictlyAscending(s)
    ensures StrictlyAscending(Upsert(s, n))
    ensures forall y :: y in Upsert(s, n) <==> y == n || (y in s && y.stamp != n.stamp)
    decreases |s|
  {
    var r := Upsert(s, n);
    if s != [] {
      AscendingDistinct(s);
      assert s == [s[0]] + s[1..];
      forall y
        ensures y in s[1..] <==> y in s && y != s[0]
      {
        AscendingTail(s, y);
      }
      if s[0].stamp == n.stamp {
        forall j | 1 <= j < |r|
          ensures Before(n.stamp, r[j].stamp)
        {
          assert r[j] == s[j];
          assert Before(s[0].stamp, s[j].stamp);
        }
        AscendingCons(n, s[1..]);
        forall y
          ensures y in s[1..] ==> y.stamp != n.stamp
        {
          if y in s[1..] {
            var k :| 0 <= k < |s[1..]| && s[1..][k] == y;
            assert Before(s[0].stamp, s[k + 1].stamp);
            BeforeIsStrictTotalOrder(y.stamp, y.stamp, y.stamp);
          }
        }
      } else if Before(n.stamp, s[0].stamp) {
        forall j | 0 <= j < |s|
          ensures Before(n.stamp, s[j].stamp)
        {
          if j > 0 {
            assert Before(s[0].stamp, s[j].stamp);
            BeforeIsStrictTotalOrder(n.stamp, s[0].stamp, s[j].stamp);
          }
        }
        AscendingCons(n, s);
        forall y
          ensures y in s ==> y.stamp != n.stamp
        {
          if y in s {
            AscendingHead(s, y);
            BeforeIsStrictTotalOrder(n.stamp, s[0].stamp, y.stamp);
            BeforeIsStrictTotalOrder(y.stamp, y.stamp, y.stamp);
          }
        }
      } else {
        UpsertShape(s[1..], n);
        var t := Upsert(s[1..], n);
        BeforeIsStrictTotalOrder(s[0].stamp, n.stamp, s[0].stamp);
        forall j | 0 <= j < |t|
          ensures Before(s[0].stamp, t[j].stamp)
        {
          assert t[j] in t;
          if t[j] != n {
            var k :| 0 <= k < |s[1..]| && s[1..][k] == t[j];
            assert s[k + 1] == t[j];
          }
        }
        AscendingCons(s[0], t);
        assert r == [s[0]] + t;
      }
    }
  }

  /** On a stored (ascending) series, the merge of save_to_csv is Upsert. */
  lemma MergeIsUpsert(rows: seq<Row>, newRow: Row)
    requires StrictlyAscending(rows)
    ensures Merge(rows, newRow) == Upsert(rows, newRow)
  {
    var m, u := Merge(rows, newRow), Upsert(rows, newRow);
    UpsertShape(rows, newRow);
    AscendingDistinct(rows);
    forall y
      ensures y in m <==> y in u
    {
      LatestForAppend(rows, newRow, y.stamp);
      LatestForDistinct(rows, y);
    }
    AscendingUnique(m, u);
  }

  /** Saving the same row twice leaves the series as saving it once. */
  lemma MergeIdempotent(rows: seq<Row>, newRow: Row)
    ensures Merge(Merge(rows, newRow), newRow) == Merge(rows, newRow)
  {
    var m := Merge(rows, newRow);
    LatestForAppend(rows, newRow, newRow.stamp);
    MergeIsUpsert(m, newRow);
    UpsertShape(m, newRow);
    forall y
      ensures y in Upsert(m, newRow) <==> y in m
    {
      LatestForAppend(rows, newRow, y.stamp);
    }
    AscendingUnique(Upsert(m, newRow), m);
  }
}
