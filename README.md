# SEO title predictor — verified model of its deterministic core

The repository is one Streamlit dashboard, `seo_predictor_app.py`, that queries
the Google Search Console search-analytics API, applies a keyword-in-title
heuristic and forecasts clicks with Prophet. This project models the parts of
it that are plain deterministic logic, as Dafny functions and lemmas:

- **Heuristic** (`heuristic.dfy`, on top of `text.dfy`): `keyword_in_title`,
  which strips and lower-cases both strings and tests whether the keyword is a
  substring of the title; the confidence `80 if match else 50`; the label
  "Optimizable" / "Not Optimizable" chosen by `conf > 70`.
- **Dashboard** (`dashboard.dfy`): what the "Run Prediction & Forecast" button
  decides — the site-wide 90-day date series when the keyword matches, then a
  "no data" warning for an empty series or the 15-day `forecast` call on a
  non-empty one; the top 5 queries of the last 30 days otherwise. The site's response
  is a parameter.
- **Search-analytics requests** (`searchanalytics.dfy`): the request bodies of
  `fetch_site_data`, `fetch_queries_df`, `fetch_page_data` and
  `fetch_keyword_data`, built by one builder parameterised by dimension, filter,
  row limit and days. Dates are day ordinals (as `date.toordinal()`), and
  "today" is a parameter.
- **Response normalisation** (`normalise.dfy`): response rows with optional
  `keys`, `clicks` and `impressions` become either a date series sorted by date
  or a query table in response order.

`wrappers.dfy` holds the `Option` and `Result` types used for `dict.get`
defaults and for the exceptions the helpers can raise.

The model follows the code in these details:

- A date series is sorted by date, not deduplicated: rows with the same date
  are all kept.
- A query record's clicks and impressions are copied as they come, with no
  check relating one to the other.
- A blank keyword matches every title, the empty title included.
- `today - timedelta(days=days)` raises `OverflowError` outside Python's date
  range (0001-01-01 to 9999-12-31). The model returns `Failure(DateOutOfRange)`
  there.
- `r["keys"][0]` raises when a row has no keys. The model returns
  `Failure(MissingKey)` for the whole table.

## Model

| member | source | states |
|---|---|---|
| Text.ToLower | seo_predictor_app.py:116 | an upper-case ASCII letter becomes its lower-case letter (code point + 32), every other character is kept, and whitespace-ness never changes |
| Text.Lower | seo_predictor_app.py:116 | `lower()` keeps the length and lower-cases each character in place |
| Text.StripLeft | seo_predictor_app.py:116 | the result is a suffix of the input, everything dropped is whitespace, and the result is empty or starts with a non-space (Python's ASCII whitespace, 0x1C-0x1F included) |
| Text.StripRight | seo_predictor_app.py:116 | the result is a prefix of the input, everything dropped is whitespace, and the result is empty or ends with a non-space |
| Text.Strip | seo_predictor_app.py:116 | `strip()` is no longer than its input, neither starts nor ends with whitespace, and is empty exactly when the input is all whitespace |
| Text.StripIsSlice | seo_predictor_app.py:116 | `strip()` is the slice of its input between a whitespace-only prefix and a whitespace-only suffix; with Text.Strip this fixes the result uniquely |
| Text.ContainsIsSubstring | seo_predictor_app.py:116 | the `in` scan is true exactly when the needle occurs at some index of the haystack |
| Text.Contains | seo_predictor_app.py:116 | the `in` scan succeeds only for a needle no longer than the haystack, and always for a prefix |
| Text.StripPadding | seo_predictor_app.py:116 | `strip` gives the same result when any whitespace is added before and after the string |
| Text.StripAllSpace | seo_predictor_app.py:116 | a whitespace-only string strips to the empty string |
| Text.LowerStripCommute | seo_predictor_app.py:116 | lower-casing then stripping equals stripping then lower-casing |
| Heuristic.KeywordInTitleMeansOccurrence | seo_predictor_app.py:115-116 | the keyword matches exactly when its stripped lower-case form occurs in the stripped lower-case title |
| Heuristic.KeywordInTitle | seo_predictor_app.py:115-116 | a matching keyword is, once stripped, no longer than the stripped title |
| Heuristic.KeywordInTitleIgnoresPadding | seo_predictor_app.py:115-116 | whitespace padding on either side of the title or the keyword never changes the result |
| Heuristic.KeywordInTitleIgnoresCase | seo_predictor_app.py:115-116 | titles and keywords that agree up to ASCII case give the same result |
| Heuristic.KeywordInTitleUpperCase | seo_predictor_app.py:115-116 | upper-casing the title and the keyword leaves the result unchanged |
| Heuristic.BlankKeywordMatches | seo_predictor_app.py:116 | an empty or whitespace-only keyword matches every title, giving confidence 80 |
| Heuristic.Confidence | seo_predictor_app.py:132 | the confidence is always 80 or 50 |
| Heuristic.LabelOf | seo_predictor_app.py:133 | the label is "Optimizable" exactly when the confidence is strictly above 70 |
| Heuristic.ConfidenceAndLabel | seo_predictor_app.py:132-133 | confidence is 80 exactly on a match and 50 otherwise, never 70, and the label is "Optimizable" exactly on a match |
| Dashboard.SiteOutcomeOf | seo_predictor_app.py:137-153 | the site branch calls `forecast` only after a successful request, with horizon 15, and only on a non-empty series; an empty series is the "no data" case |
| Dashboard.RunPrediction | seo_predictor_app.py:132-159 | the site panel is chosen exactly when the label is "Optimizable" |
| Dashboard.RunPredictionBranches | seo_predictor_app.py:132-159 | the site-wide fetch (90 days) runs exactly when the keyword matches and the label is "Optimizable", the alternative-keyword fetch of 30 days and 5 rows exactly otherwise; the 15-day `forecast` call on the site series is made exactly when the keyword matches, the request is valid and the series is a non-empty table |
| Dashboard.BlankKeywordTakesSiteBranch | seo_predictor_app.py:132-137 | a blank keyword always takes the site branch |
| SearchAnalytics.BuildRequest | seo_predictor_app.py:27-29 | a request exists exactly when `today - days` is a valid date; its window ends today, spans exactly `days` days and is non-empty exactly when `days >= 0`; it carries the given single dimension, filter, row limit and metrics, for the configured site |
| SearchAnalytics.SiteRequest | seo_predictor_app.py:25-30 | dimension `date`, no filter, row limit 10000, no metrics |
| SearchAnalytics.QueriesRequest | seo_predictor_app.py:38-49 | dimension `query`, no filter, row limit equal to the caller's `limit`, metrics clicks and impressions |
| SearchAnalytics.PageRequest | seo_predictor_app.py:57-74 | dimension `date`, row limit 10000, one `page equals` filter whose expression is `https://locusit.se` followed by the path unchanged |
| SearchAnalytics.KeywordRequest | seo_predictor_app.py:82-99 | dimension `date`, row limit 10000, one `query equals` filter whose expression is the keyword unchanged (not stripped, not lower-cased) |
| Text.TrimTrailing | seo_predictor_app.py:69 | `rstrip("/")` keeps a prefix, drops only `/` characters, and leaves no trailing `/` |
| SearchAnalytics.PageExpression | seo_predictor_app.py:69 | the site URL with its trailing slash removed, followed by the path, is `https://locusit.se` + path |
| SearchAnalytics.WindowOfEveryHelper | seo_predictor_app.py:27-28 | all four helpers share one window: a request exists exactly when `today - days` is a valid date, and then it runs from `today - days` to `today` |
| SearchAnalytics.FiltersKeepTheirArgument | seo_predictor_app.py:65-97 | distinct paths give distinct page requests, distinct keywords give distinct keyword requests, and a page request is never a keyword request |
| Normalise.Points | seo_predictor_app.py:33-34 | one point per row, in row order, dated by `keys[0]`, with missing clicks read as 0 |
| Normalise.Insert | seo_predictor_app.py:35 | inserting into a date-sorted series keeps it sorted and adds exactly the one point |
| Normalise.SortByDate | seo_predictor_app.py:35 | the result is sorted by date and is a permutation of the input |
| Normalise.DateSeriesSpec | seo_predictor_app.py:31-35 | the series has one point per row, is sorted by date and is a permutation of the rows' points; it fails exactly when a row lacks a key; no `rows` gives the empty series |
| Normalise.DateSeriesPointsFromRows | seo_predictor_app.py:31-35 | a point is in the series exactly when some row produces it |
| Normalise.DateSeries | seo_predictor_app.py:31-35 | the series fails exactly when a row lacks a key; otherwise it is sorted by date with one point per row |
| Normalise.RecordsSpec | seo_predictor_app.py:50-54 | one record per row in row order, keyword `keys[0]`, missing clicks or impressions read as 0 |
| Normalise.Records | seo_predictor_app.py:50-54 | one record per row |
| Normalise.QueryTable | seo_predictor_app.py:50-54 | the table fails exactly when a row lacks a key; otherwise it has one record per row |
| Normalise.QueryTableSpec | seo_predictor_app.py:50-54 | the table fails exactly when a row lacks a key, no `rows` gives the empty table, and otherwise record i is built from row i |
| Normalise.RecordsAppend | seo_predictor_app.py:50-54 | the table of concatenated rows is the concatenation of their tables, so response order is kept |
| Dashboard.EmptyAlternativesFail | seo_predictor_app.py:159-160 | with a non-matching keyword and a query response without rows, the keyword-column lookup as written fails |
| Dashboard.KeywordColumnAsWritten | seo_predictor_app.py:160 | `df_q["keyword"]` as written fails exactly on an empty table, and otherwise lists one keyword per record |
| Dashboard.KeywordColumn | seo_predictor_app.py:160 | the corrected keyword column lists each record's keyword, in order, and nothing for an empty table |
| Dashboard.KeywordColumnCorrects | seo_predictor_app.py:160 | the corrected column agrees with the code wherever the code does not fail, and the code fails exactly on the empty table |

## Findings

| source | as written | input that shows it | evidently intended | confidence | as-written member | corrected member |
|---|---|---|---|---|---|---|
| seo_predictor_app.py:159-160 | `fetch_queries_df` builds `pd.DataFrame([])` when the response has no rows, a frame with no columns, and `df_q["keyword"]` then raises `KeyError` | a keyword not in the title, on a site with no query data in the last 30 days (response without `rows`) | list no alternative keywords | medium, not executed (rests on pandas giving a column-less frame for an empty list of records) | Dashboard.KeywordColumnAsWritten, Dashboard.EmptyAlternativesFail | Dashboard.KeywordColumn, Dashboard.KeywordColumnCorrects |

## Left out

- Streamlit layout, widgets, tabs, charts, metrics and warnings (seo_predictor_app.py:119-202): presentation only, including the widget bounds and the unused word-count input.
- Credential loading, service construction and the `searchanalytics().query(...).execute()` call: network I/O through a client library. The model takes the response as input.
- `@st.cache_data(ttl=3600)` memoisation: a library cache whose behaviour is not in the code.
- The Prophet `forecast` function and `plot_plotly`: an opaque floating-point regression library. The model records only which series is forecast and the 15-day horizon. Prophet's `fit` raises on a frame with fewer than two rows, so a one-day series ends in an exception; the `Forecast` outcome stands for the call being made, not for its success.
- The click total, mean, 7-day comparison and average CTR (seo_predictor_app.py:141-145, 173-174): floating-point statistics over pandas.
- `datetime.date.today()`, `str(date)` ISO formatting and `pd.to_datetime` parsing: "today" is a parameter, dates are day ordinals, and date keys are taken as already parsed.
- Text.ToLower: Python's `lower` and `strip` are modelled on ASCII only. Non-ASCII characters are never changed and never count as whitespace.
- Normalise.SortByDate: `sort_values` uses an unstable sort by default, so the order of rows with equal dates is not fixed by the code. The model keeps their response order; only sortedness and the permutation are the code's promise.
- Response values of other types than the model's (a `null` `clicks`, non-integer metrics, non-list `keys`) are not modelled.
