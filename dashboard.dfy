/** What the "Run Prediction & Forecast" button computes: the confidence and
    label of the heuristic, and which request the panel then sends — the
    site-wide date series when the label is "Optimizable", the five top
    queries of the last 30 days otherwise. On the first branch the site's
    response (a parameter, since the query itself is I/O) decides between a
    "no data" warning and the 15-day `forecast` call. */
module Dashboard {
  import opened Wrappers
  import opened Heuristic
  import opened SearchAnalytics
  import opened Normalise

  const SiteForecastHorizon: int := 15
  const AlternativeDays: int := 30
  const AlternativeLimit: int := 5

  /** What the site branch ends in: the request or a row raised, the series
      was empty (`df_site.empty`, a warning), or `forecast` was called on the
      series (whether Prophet's fit then succeeds is not modelled). */
  datatype SiteOutcome =
    | RequestFailed(fetchError: FetchError)
    | RowsFailed(rowError: RowError)
    | NoSiteData
    | Forecast(series: seq<Point>, horizon: int)

  datatype Fetch =
    | SitePanel(request: Result<Request, FetchError>, outcome: SiteOutcome)
    | AlternativeKeywords(request: Result<Request, FetchError>)

  datatype Prediction = Prediction(confidence: int, rating: Label, fetch: Fetch)

  /** `df_site = fetch_site_data()` followed by the `df_site.empty` test. */
  function SiteOutcomeOf(request: Result<Request, FetchError>, site: Response<int>): (o: SiteOutcome)
    ensures o.Forecast? ==> request.Success? && o.horizon == SiteForecastHorizon && o.series != []
    ensures o.NoSiteData? ==> request.Success? && DateSeries(site) == Success([])
  {
    match request
    case Failure(e) => RequestFailed(e)
    case Success(_) =>
      match DateSeries(site)
      case Failure(e) => RowsFailed(e)
      case Success(series) => if series == [] then NoSiteData else Forecast(series, SiteForecastHorizon)
  }

  /** The button's run, given today and the site's date-series response. */
  function RunPrediction(title: string, keyword: string, today: int, site: Response<int>): (p: Prediction)
    requires ValidDay(today)
    ensures p.fetch.SitePanel? <==> p.rating == Optimizable
  {
    var conf := Confidence(title, keyword);
    Prediction(conf, LabelOf(conf),
      if conf > Threshold then
        var request := SiteRequest(today, MaxHistory);
        SitePanel(request, SiteOutcomeOf(request, site))
      else AlternativeKeywords(QueriesRequest(today, AlternativeDays, AlternativeLimit)))
  }

  /** The site-wide fetch of 90 days runs exactly when the keyword matches,
      with label "Optimizable" and confidence 80; the alternative-keyword
      fetch of 30 days and 5 rows runs exactly when it does not, with label
      "Not Optimizable" and confidence 50. The 15-day `forecast` call is made
      exactly when the keyword matches and the site's series is a non-empty
      table, and it is made on that series. */
  lemma RunPredictionBranches(title: string, keyword: string, today: int, site: Response<int>)
    requires ValidDay(today)
    ensures var p := RunPrediction(title, keyword, today, site);
      && (p.fetch.SitePanel? <==> KeywordInTitle(title, keyword))
      && (p.fetch.SitePanel? <==> p.rating == Optimizable)
      && (p.fetch.SitePanel? ==>
            p.confidence == MatchConfidence
            && p.fetch.request == SiteRequest(today, MaxHistory))
      && (p.fetch.AlternativeKeywords? ==>
            p.confidence == NoMatchConfidence
            && p.fetch.request == QueriesRequest(today, AlternativeDays, AlternativeLimit))
      && ((p.fetch.SitePanel? && p.fetch.outcome.Forecast?) <==>
            && KeywordInTitle(title, keyword)
            && ValidDay(today - MaxHistory)
            && DateSeries(site).Success?
            && DateSeries(site).value != [])
      && (p.fetch.SitePanel? && p.fetch.outcome.Forecast? ==>
            p.fetch.outcome.series == DateSeries(site).value
            && p.fetch.outcome.horizon == SiteForecastHorizon)
  {
    ConfidenceAndLabel(title, keyword);
  }

  /** A blank keyword always takes the site branch. */
  lemma BlankKeywordTakesSiteBranch(title: string, keyword: string, today: int, site: Response<int>)
    requires ValidDay(today) && Text.AllSpace(keyword)
    ensures RunPrediction(title, keyword, today, site).fetch.SitePanel?
  {
    BlankKeywordMatches(title, keyword);
  }

  /** `pd.DataFrame([...])` of an empty list has no columns, so the
      `df_q["keyword"]` lookup of the alternative-keyword branch raises
      `KeyError` when the query response had no rows. */
  datatype ColumnError = NoKeywordColumn

  /** The keyword column of a query table as the panel reads it. */
  function KeywordColumnAsWritten(table: seq<QueryRecord>): (r: Result<seq<string>, ColumnError>)
    ensures r.Failure? <==> table == []
    ensures r.Success? ==> |r.value| == |table|
  {
    if table == [] then Failure(NoKeywordColumn)
    else Success(seq(|table|, i requires 0 <= i < |table| => table[i].keyword))
  }

  /** The keyword column with an empty table giving an empty list. */
  function KeywordColumn(table: seq<QueryRecord>): (ks: seq<string>)
    ensures |ks| == |table|
    ensures forall i :: 0 <= i < |table| ==> ks[i] == table[i].keyword
  {
    seq(|table|, i requires 0 <= i < |table| => table[i].keyword)
  }

  /** When the keyword does not match and the query response carries no
      rows, the panel as written fails instead of listing nothing. */
  lemma EmptyAlternativesFail(title: string, keyword: string, today: int, site: Response<int>)
    requires ValidDay(today) && !KeywordInTitle(title, keyword)
    ensures RunPrediction(title, keyword, today, site).fetch.AlternativeKeywords?
    ensures QueryTable(Response(None)) == Success([])
    ensures KeywordColumnAsWritten(QueryTable(Response(None)).value) == Failure(NoKeywordColumn)
  {
  }

  /** The corrected column agrees with the panel wherever the panel does not
      fail, and lists nothing for the empty table, where the panel fails. */
  lemma KeywordColumnCorrects(table: seq<QueryRecord>)
    ensures KeywordColumnAsWritten(table).Success? ==> KeywordColumnAsWritten(table).value == KeywordColumn(table)
    ensures KeywordColumn([]) == []
  {
  }
}
