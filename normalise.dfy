/** How the helpers turn a search-analytics response into a table: the
    date-series helpers build `(ds, y)` points sorted by date, the query
    helper builds `(keyword, clicks, impressions)` records in response order.
    A row's `keys`, `clicks` and `impressions` may each be absent. */
module Normalise {
  import opened Wrappers

  /** One response row; `K` is the type of its dimension values (day
      ordinals for date series, strings for queries). */
  datatype Row<K> = Row(keys: Option<seq<K>>, clicks: Option<int>, impressions: Option<int>)

  /** A response; `rows` is absent when nothing matched. */
  datatype Response<K> = Response(rows: Option<seq<Row<K>>>)

  /** `r["keys"][0]` raises `KeyError` or `IndexError` on a row without keys. */
  datatype RowError = MissingKey

  datatype Point = Point(date: int, clicks: int)

  datatype QueryRecord = QueryRecord(keyword: string, clicks: int, impressions: int)

  /** `resp.get("rows", [])`. */
  function RowsOf<K>(resp: Response<K>): seq<Row<K>> {
    resp.rows.GetOr([])
  }

  predicate HasKey<K>(row: Row<K>) {
    row.keys.Some? && |row.keys.value| > 0
  }

  predicate AllKeyed<K>(rows: seq<Row<K>>) {
    forall i :: 0 <= i < |rows| ==> HasKey(rows[i])
  }

  /** `(r["keys"][0], r.get("clicks", 0))`. */
  function ToPoint(row: Row<int>): Point
    requires HasKey(row)
  {
    Point(row.keys.value[0], row.clicks.GetOr(0))
  }

  /** The unsorted points, one per row, in response order. */
  function Points(rows: seq<Row<int>>): (ps: seq<Point>)
    requires AllKeyed(rows)
    ensures |ps| == |rows|
    ensures forall i :: 0 <= i < |rows| ==> ps[i] == ToPoint(rows[i])
  {
    if rows == [] then [] else [ToPoint(rows[0])] + Points(rows[1..])
  }

  predicate SortedByDate(ps: seq<Point>) {
    forall i, j :: 0 <= i < j < |ps| ==> ps[i].date <= ps[j].date
  }

  /** Inserts `p` before the first point whose date is not earlier, so that
      `p` stays ahead of points with the same date. */
  function Insert(p: Point, ps: seq<Point>): (r: seq<Point>)
    requires SortedByDate(ps)
    ensures |r| == |ps| + 1
    ensures r[0] == p || (ps != [] && r[0] == ps[0])
    ensures SortedByDate(r)
    ensures multiset(r) == multiset(ps) + multiset{p}
  {
    if ps == [] || p.date <= ps[0].date then [p] + ps
    else
      assert ps == [ps[0]] + ps[1..];
      [ps[0]] + Insert(p, ps[1..])
  }

  /** `sort_values("ds")`: a permutation of the points, ordered by date. */
  function SortByDate(ps: seq<Point>): (r: seq<Point>)
    ensures SortedByDate(r)
    ensures multiset(r) == multiset(ps)
  {
    if ps == [] then []
    else
      assert ps == [ps[0]] + ps[1..];
      Insert(ps[0], SortByDate(ps[1..]))
  }

  /** The date-series table of `fetch_site_data`, `fetch_page_data` and
      `fetch_keyword_data`. */
  function DateSeries(resp: Response<int>): (r: Result<seq<Point>, RowError>)
    ensures r.Failure? <==> !AllKeyed(RowsOf(resp))
    ensures r.Success? ==> SortedByDate(r.value) && |r.value| == |RowsOf(resp)|
  {
    var rows := RowsOf(resp);
    if AllKeyed(rows) then Success(SortByDate(Points(rows))) else Failure(MissingKey)
  }

  /** `{"keyword": r["keys"][0], "clicks": r.get("clicks", 0),
      "impressions": r.get("impressions", 0)}`. */
  function ToRecord(row: Row<string>): QueryRecord
    requires HasKey(row)
  {
    QueryRecord(row.keys.value[0], row.clicks.GetOr(0), row.impressions.GetOr(0))
  }

  function Records(rows: seq<Row<string>>): (r: seq<QueryRecord>)
    requires AllKeyed(rows)
    ensures |r| == |rows|
  {
    if rows == [] then [] else [ToRecord(rows[0])] + Records(rows[1..])
  }

  /** The query table of `fetch_queries_df`. */
  function QueryTable(resp: Response<string>): (r: Result<seq<QueryRecord>, RowError>)
    ensures r.Failure? <==> !AllKeyed(RowsOf(resp))
    ensures r.Success? ==> |r.value| == |RowsOf(resp)|
  {
    var rows := RowsOf(resp);
    if AllKeyed(rows) then Success(Records(rows)) else Failure(MissingKey)
  }

  /** A date series has one point per response row, dated by the row's first
      key, with a missing click count read as 0; it is a permutation of those
      points ordered by date. It fails exactly when some row has no key, and
      a response without rows gives the empty series. */
  lemma DateSeriesSpec(resp: Response<int>)
    ensures DateSeries(resp).Failure? <==> exists i :: 0 <= i < |RowsOf(resp)| && !HasKey(RowsOf(resp)[i])
    ensures resp.rows.None? ==> DateSeries(resp) == Success([])
    ensures DateSeries(resp).Success? ==>
      && |DateSeries(resp).value| == |RowsOf(resp)|
      && SortedByDate(DateSeries(resp).value)
      && multiset(DateSeries(resp).value) == multiset(Points(RowsOf(resp)))
  {
    if DateSeries(resp).Success? {
      var ps := Points(RowsOf(resp));
      assert |multiset(SortByDate(ps))| == |multiset(ps)|;
    }
  }

  /** Every point of a series comes from some row, and every row's point is
      in the series. */
  lemma DateSeriesPointsFromRows(resp: Response<int>, p: Point)
    requires DateSeries(resp).Success?
    ensures p in DateSeries(resp).value <==>
      exists i :: 0 <= i < |RowsOf(resp)| && ToPoint(RowsOf(resp)[i]) == p
  {
    var ps := Points(RowsOf(resp));
    assert p in DateSeries(resp).value <==> p in multiset(ps);
  }

  /** The query table has one record per row, in response order, keyed by
      the row's first key, with missing clicks or impressions read as 0. It
      fails exactly when some row has no key, and a response without rows
      gives the empty table. */
  lemma {:induction false} RecordsSpec(rows: seq<Row<string>>)
    requires AllKeyed(rows)
    ensures |Records(rows)| == |rows|
    ensures forall i :: 0 <= i < |rows| ==>
      && Records(rows)[i].keyword == rows[i].keys.value[0]
      && Records(rows)[i].clicks == (if rows[i].clicks.Some? then rows[i].clicks.value else 0)
      && Records(rows)[i].impressions == (if rows[i].impressions.Some? then rows[i].impressions.value else 0)
  {
    if rows != [] {
      RecordsSpec(rows[1..]);
      forall i | 0 <= i < |rows|
        ensures Records(rows)[i] == ToRecord(rows[i])
      {
        if i > 0 {
          assert Records(rows)[i] == Records(rows[1..])[i - 1];
        }
      }
    }
  }

  lemma QueryTableSpec(resp: Response<string>)
    ensures QueryTable(resp).Failure? <==> exists i :: 0 <= i < |RowsOf(resp)| && !HasKey(RowsOf(resp)[i])
    ensures resp.rows.None? ==> QueryTable(resp) == Success([])
    ensures QueryTable(resp).Success? ==> |QueryTable(resp).value| == |RowsOf(resp)|
    ensures QueryTable(resp).Success? ==> forall i :: 0 <= i < |RowsOf(resp)| ==>
      QueryTable(resp).value[i] == QueryRecord(RowsOf(resp)[i].keys.value[0],
                                                RowsOf(resp)[i].clicks.GetOr(0),
                                                RowsOf(resp)[i].impressions.GetOr(0))
  {
    if QueryTable(resp).Success? {
      RecordsSpec(RowsOf(resp));
    }
  }

  /** Response order is kept: the table of two concatenated row lists is the
      concatenation of their tables. */
  lemma {:induction false} RecordsAppend(a: seq<Row<string>>, b: seq<Row<string>>)
    requires AllKeyed(a) && AllKeyed(b)
    ensures AllKeyed(a + b)
    ensures Records(a + b) == Records(a) + Records(b)
  {
    if a != [] {
      assert (a + b)[1..] == a[1..] + b;
      RecordsAppend(a[1..], b);
    } else {
      assert a + b == b;
    }
  }
}
