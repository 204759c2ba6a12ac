/** The search analytics dashboard's derived data: the top-10 chart rows with
    their truncated labels, and the "Popular Search" and "Zero Results" cards
    with their "N/A" fallback. */
module SearchAnalytics {
  import opened Common

  datatype QueryCount = QueryCount(query: string, count: int)

  datatype Analytics = Analytics(totalSearches: int, topQueries: seq<QueryCount>, topNoResultQueries: seq<QueryCount>)

  /** One bar of a chart: the shown name, the count, and the full query. */
  datatype ChartItem = ChartItem(name: string, searches: int, fullQuery: string)

  /** The bar name: the query, or its first 15 characters and `...` when longer. */
  function ChartLabel(query: string): (name: string)
    ensures |query| <= 15 ==> name == query
    ensures |query| > 15 ==> name == query[..15] + "..."
    ensures |name| <= 18
  {
    if |query| > 15 then query[..15] + "..." else query
  }

  /** `slice(0, 10).map(...)`: at most ten rows, in the list's order. */
  function ChartRows(list: seq<QueryCount>): (rows: seq<ChartItem>)
    ensures |rows| == if |list| < 10 then |list| else 10
    ensures forall k :: 0 <= k < |rows| ==>
      && rows[k].fullQuery == list[k].query
      && rows[k].searches == list[k].count
      && rows[k].name == ChartLabel(list[k].query)
  {
    var top := Take(list, 10);
    seq(|top|, k requires 0 <= k < |top| => ChartItem(ChartLabel(top[k].query), top[k].count, top[k].query))
  }

  /** Both charts; nothing before the data has loaded. */
  function ChartData(analytics: Option<Analytics>): (r: Option<(seq<ChartItem>, seq<ChartItem>)>)
    ensures r.None? <==> analytics.None?
    ensures r.Some? ==>
      && r.value.0 == ChartRows(analytics.value.topQueries)
      && r.value.1 == ChartRows(analytics.value.topNoResultQueries)
  {
    match analytics
    case None => None
    case Some(a) => Some((ChartRows(a.topQueries), ChartRows(a.topNoResultQueries)))
  }

  /** `list[0]?.query || "N/A"`. */
  function FirstQueryOrNA(list: Option<seq<QueryCount>>): (shown: string)
    ensures shown == "N/A" <==> list.None? || |list.value| == 0 || list.value[0].query == "" || list.value[0].query == "N/A"
    ensures shown != "N/A" ==> shown == list.value[0].query
  {
    if list.Some? && |list.value| > 0 && list.value[0].query != "" then list.value[0].query else "N/A"
  }

  /** The "Popular Search" card. */
  function PopularSearchCard(analytics: Option<Analytics>): (shown: string)
    ensures analytics.None? ==> shown == "N/A"
    ensures analytics.Some? ==> shown == FirstQueryOrNA(Some(analytics.value.topQueries))
  {
    FirstQueryOrNA(if analytics.Some? then Some(analytics.value.topQueries) else None)
  }

  /** The "Zero Results" card. */
  function ZeroResultsCard(analytics: Option<Analytics>): (shown: string)
    ensures analytics.None? ==> shown == "N/A"
    ensures analytics.Some? ==> shown == FirstQueryOrNA(Some(analytics.value.topNoResultQueries))
  {
    FirstQueryOrNA(if analytics.Some? then Some(analytics.value.topNoResultQueries) else None)
  }
}
