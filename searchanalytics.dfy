/** The request bodies the four `fetch_*` helpers send to the Search Console
    search-analytics query. Dates are day ordinals (`date.toordinal()`), so
    `today - timedelta(days=days)` is `today - days`, and "today" is a
    parameter instead of a clock reading. */
module SearchAnalytics {
  import opened Wrappers
  import opened Text

  const SiteUrl: string := "https://locusit.se/"
  /** Default history window, in days, of the date-series helpers. */
  const MaxHistory: int := 90
  /** Row limit of every date-series request. */
  const DateSeriesRowLimit: int := 10000

  /** Ordinals of 0001-01-01 and 9999-12-31, the range of Python's `date`. */
  const MinDay: int := 1
  const MaxDay: int := 3652059

  predicate ValidDay(d: int) {
    MinDay <= d <= MaxDay
  }

  datatype Dimension = Date | Query | Page
  datatype Metric = Clicks | Impressions
  datatype Operator = Equals

  /** One entry of `dimensionFilterGroups[0].filters`. */
  datatype Filter = Filter(dimension: Dimension, operator: Operator, expression: string)

  /** The request body; `filter` is the single filter of the single filter
      group, when the helper sends one, and `metrics` is empty when the
      helper sends no `metrics` key. */
  datatype Body = Body(
    startDate: int,
    endDate: int,
    dimensions: seq<Dimension>,
    filter: Option<Filter>,
    rowLimit: int,
    metrics: seq<Metric>)

  datatype Request = Request(siteUrl: string, body: Body)

  /** `today - timedelta(days=days)` raises `OverflowError` when the start
      date falls outside Python's date range. */
  datatype FetchError = DateOutOfRange

  /** The one builder behind all four helpers: an inclusive window from
      `today - days` to `today`, one dimension, an optional equality filter,
      a row limit and the metrics list. */
  function BuildRequest(today: int, days: int, dimension: Dimension, filter: Option<Filter>,
                        rowLimit: int, metrics: seq<Metric>): (r: Result<Request, FetchError>)
    requires ValidDay(today)
    ensures r.Success? <==> ValidDay(today - days)
    ensures r.Success? ==>
      && r.value.siteUrl == SiteUrl
      && r.value.body.endDate == today
      && r.value.body.endDate - r.value.body.startDate == days
      && (r.value.body.startDate <= r.value.body.endDate <==> days >= 0)
      && r.value.body.dimensions == [dimension]
      && r.value.body.filter == filter
      && r.value.body.rowLimit == rowLimit
      && r.value.body.metrics == metrics
  {
    var start := today - days;
    if !ValidDay(start) then Failure(DateOutOfRange)
    else Success(Request(SiteUrl, Body(start, today, [dimension], filter, rowLimit, metrics)))
  }

  /** `SITE_URL.rstrip("/") + path`: the site URL without its trailing
      slash, followed by the path exactly as given. */
  function PageExpression(path: string): (r: string)
    ensures r == "https://locusit.se" + path
  {
    assert SiteUrl[|SiteUrl| - 1] == '/';
    assert SiteUrl[..|SiteUrl| - 1] == "https://locusit.se";
    TrimTrailing(SiteUrl, '/') + path
  }

  /** `fetch_site_data(days)`: the date series of the whole site. */
  function SiteRequest(today: int, days: int): (r: Result<Request, FetchError>)
    requires ValidDay(today)
    ensures r.Success? <==> ValidDay(today - days)
    ensures r.Success? ==>
      && r.value.body.dimensions == [Date]
      && r.value.body.filter.None?
      && r.value.body.rowLimit == DateSeriesRowLimit
      && r.value.body.metrics == []
  {
    BuildRequest(today, days, Date, None, DateSeriesRowLimit, [])
  }

  /** `fetch_queries_df(days, limit)`: the top queries with their clicks and
      impressions. */
  function QueriesRequest(today: int, days: int, limit: int): (r: Result<Request, FetchError>)
    requires ValidDay(today)
    ensures r.Success? <==> ValidDay(today - days)
    ensures r.Success? ==>
      && r.value.body.dimensions == [Query]
      && r.value.body.filter.None?
      && r.value.body.rowLimit == limit
      && r.value.body.metrics == [Clicks, Impressions]
  {
    BuildRequest(today, days, Query, None, limit, [Clicks, Impressions])
  }

  /** `fetch_page_data(path, days)`: the date series of one page. */
  function PageRequest(today: int, path: string, days: int): (r: Result<Request, FetchError>)
    requires ValidDay(today)
    ensures r.Success? <==> ValidDay(today - days)
    ensures r.Success? ==>
      && r.value.body.dimensions == [Date]
      && r.value.body.filter == Some(Filter(Page, Equals, "https://locusit.se" + path))
      && r.value.body.rowLimit == DateSeriesRowLimit
      && r.value.body.metrics == []
  {
    BuildRequest(today, days, Date, Some(Filter(Page, Equals, PageExpression(path))), DateSeriesRowLimit, [])
  }

  /** `fetch_keyword_data(keyword, days)`: the date series of one search
      query. The keyword goes into the filter untrimmed and with its case. */
  function KeywordRequest(today: int, keyword: string, days: int): (r: Result<Request, FetchError>)
    requires ValidDay(today)
    ensures r.Success? <==> ValidDay(today - days)
    ensures r.Success? ==>
      && r.value.body.dimensions == [Date]
      && r.value.body.filter == Some(Filter(Query, Equals, keyword))
      && r.value.body.rowLimit == DateSeriesRowLimit
      && r.value.body.metrics == []
  {
    BuildRequest(today, days, Date, Some(Filter(Query, Equals, keyword)), DateSeriesRowLimit, [])
  }

  /** All four helpers share one window: a request exists exactly when
      `today - days` is a date, and then it runs from `today - days` to
      `today`. */
  lemma WindowOfEveryHelper(today: int, days: int, limit: int, path: string, keyword: string)
    requires ValidDay(today)
    ensures forall r :: r in [SiteRequest(today, days), QueriesRequest(today, days, limit),
                             PageRequest(today, path, days), KeywordRequest(today, keyword, days)] ==>
      (r.Success? <==> ValidDay(today - days)) &&
      (r.Success? ==>
        && r.value.body.startDate == today - days
        && r.value.body.endDate == today)
  {
  }

  /** Distinct paths give distinct page requests, and distinct keywords give
      distinct keyword requests: the filter loses nothing of its argument. */
  lemma FiltersKeepTheirArgument(today: int, days: int, path: string, path': string,
                                 keyword: string, keyword': string)
    requires ValidDay(today) && ValidDay(today - days)
    ensures PageRequest(today, path, days) == PageRequest(today, path', days) ==> path == path'
    ensures KeywordRequest(today, keyword, days) == KeywordRequest(today, keyword', days) ==> keyword == keyword'
    ensures PageRequest(today, path, days) != KeywordRequest(today, keyword, days)
  {
    var prefix := "https://locusit.se";
    if PageRequest(today, path, days) == PageRequest(today, path', days) {
      assert prefix + path == prefix + path';
      assert path == (prefix + path)[|prefix|..];
      assert path' == (prefix + path')[|prefix|..];
    }
  }
}
