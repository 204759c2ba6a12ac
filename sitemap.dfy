/** The site map: eight static routes, then routes for author profiles,
    featured quotes, trending quotes, categories, tags and birthday pages,
    with one route kept per URL — the first of those with the highest
    priority. Database rows are given in the order the queries return them;
    timestamps are opaque integers and priorities exact reals. */
module Sitemap {
  import opened Common
  import opened OrderedMap
  import JsText

  datatype ChangeFrequency = Daily | Weekly | Monthly

  datatype Route = Route(url: string, lastModified: int, changeFrequency: ChangeFrequency, priority: real)

  const BaseUrl: string := "https://gulfquotes.ae"

  /** A row with a slug and its last update, as the author, quote, category
      and trending queries select it. */
  datatype SlugRow = SlugRow(slug: string, updatedAt: int)

  datatype TagRow = TagRow(slug: string, updatedAt: Option<int>, quoteCount: nat)

  datatype QuoteRow = QuoteRow(slug: string, updatedAt: int, featured: bool)

  datatype TrendingRow = TrendingRow(quote: Option<SlugRow>)

  datatype BirthdayGroup = BirthdayGroup(bornMonth: Option<int>, bornDay: Option<int>)

  /** The static routes: the home page first, all stamped with the current time. */
  function StaticRoutes(now: int): (rs: seq<Route>)
    ensures |rs| == 8
    ensures rs[0] == Route(BaseUrl, now, Daily, 1.0)
    ensures forall k :: 0 <= k < |rs| ==> rs[k].lastModified == now
    ensures forall k :: 1 <= k < |rs| ==>
      && |rs[k].url| > |BaseUrl| + 1 && rs[k].url[..|BaseUrl| + 1] == BaseUrl + "/"
      && 0.8 <= rs[k].priority <= 0.9
    ensures forall j, k :: 0 <= j < k < |rs| ==> rs[j].url != rs[k].url
  {
    [ Route(BaseUrl, now, Daily, 1.0),
      Route(BaseUrl + "/quotes", now, Daily, 0.9),
      Route(BaseUrl + "/authors", now, Weekly, 0.9),
      Route(BaseUrl + "/categories", now, Weekly, 0.8),
      Route(BaseUrl + "/tags", now, Weekly, 0.8),
      Route(BaseUrl + "/daily", now, Daily, 0.9),
      Route(BaseUrl + "/featured", now, Daily, 0.9),
      Route(BaseUrl + "/birthdays", now, Daily, 0.8) ]
  }

  /** The tags the query selects: those with at least one quote. */
  function WithQuotes(tags: seq<TagRow>): (r: seq<TagRow>)
    ensures forall k :: 0 <= k < |r| ==> r[k].quoteCount > 0 && r[k] in tags
    ensures forall k :: 0 <= k < |tags| && tags[k].quoteCount > 0 ==> tags[k] in r
  {
    Filter(tags, (t: TagRow) => t.quoteCount > 0)
  }

  /** `Math.max(...counts)` over a non-empty selection. */
  function MaxCount(tags: seq<TagRow>): (m: nat)
    ensures forall k :: 0 <= k < |tags| ==> tags[k].quoteCount <= m
    ensures |tags| > 0 ==> exists k :: 0 <= k < |tags| && tags[k].quoteCount == m
  {
    if tags == [] then 0
    else
      var rest := MaxCount(tags[1..]);
      assert forall k :: 1 <= k < |tags| ==> tags[k] == tags[1..][k - 1];
      if tags[0].quoteCount >= rest then tags[0].quoteCount else rest
  }

  /** `max(0.5, min(0.8, 0.5 + count / maxQuotes * 0.3))`: between 0.5 and 0.8,
      linear in the count when it is at most the maximum, and 0.8 at it. */
  function TagPriority(count: nat, maxCount: nat): (p: real)
    requires maxCount > 0
    ensures 0.5 <= p <= 0.8
    ensures count <= maxCount ==> p == 0.5 + (count as real) / (maxCount as real) * 0.3
    ensures count == maxCount ==> p == 0.8
  {
    var normalized := (count as real) / (maxCount as real);
    NormalizedAtMostOne(count, maxCount);
    var raw := 0.5 + normalized * 0.3;
    var capped := if raw < 0.8 then raw else 0.8;
    if capped > 0.5 then capped else 0.5
  }

  lemma {:induction false} NormalizedAtMostOne(count: nat, maxCount: nat)
    requires maxCount > 0
    ensures count <= maxCount ==> (count as real) / (maxCount as real) <= 1.0
  {
    if count <= maxCount {
      var n := (count as real) / (maxCount as real);
      assert n * (maxCount as real) == count as real;
    }
  }

  /** A tag with more quotes never gets a lower priority. */
  lemma {:induction false} TagPriorityMonotone(c1: nat, c2: nat, maxCount: nat)
    requires maxCount > 0 && c1 <= c2
    ensures TagPriority(c1, maxCount) <= TagPriority(c2, maxCount)
  {
    var m := maxCount as real;
    assert (c1 as real) / m <= (c2 as real) / m by {
      assert (c2 as real) / m - (c1 as real) / m == ((c2 - c1) as real) / m;
    }
  }

  /** Weekly for a tag with more than 20 quotes, monthly otherwise. */
  function TagFrequency(count: nat): (f: ChangeFrequency)
    ensures f == Weekly <==> count > 20
    ensures f == Monthly <==> count <= 20
  {
    if count > 20 then Weekly else Monthly
  }

  /** The tag routes: one per tag with quotes, in the query's order. */
  function TagRoutes(tags: seq<TagRow>, now: int): (rs: seq<Route>)
    ensures var sel := WithQuotes(tags);
      && |rs| == |sel|
      && forall k :: 0 <= k < |rs| ==>
           && rs[k].url == BaseUrl + "/tags/" + sel[k].slug
           && rs[k].lastModified == sel[k].updatedAt.GetOr(now)
           && (rs[k].changeFrequency == Weekly <==> sel[k].quoteCount > 20)
           && 0.5 <= rs[k].priority <= 0.8
           && rs[k].priority == TagPriority(sel[k].quoteCount, MaxCount(sel))
  {
    var sel := WithQuotes(tags);
    var m := MaxCount(sel);
    seq(|sel|, k requires 0 <= k < |sel| =>
      Route(BaseUrl + "/tags/" + sel[k].slug, sel[k].updatedAt.GetOr(now),
            TagFrequency(sel[k].quoteCount), TagPriority(sel[k].quoteCount, m)))
  }

  /** The selected tag with the most quotes gets priority 0.8. */
  lemma {:induction false} TopTagPriority(tags: seq<TagRow>, now: int, k: nat)
    requires k < |WithQuotes(tags)| && WithQuotes(tags)[k].quoteCount == MaxCount(WithQuotes(tags))
    ensures TagRoutes(tags, now)[k].priority == 0.8
  { }

  function AuthorRoutes(authors: seq<SlugRow>): (rs: seq<Route>)
    ensures |rs| == |authors|
    ensures forall k :: 0 <= k < |rs| ==>
      rs[k] == Route(BaseUrl + "/authors/" + authors[k].slug, authors[k].updatedAt, Weekly, 0.7)
  {
    Map(authors, (a: SlugRow) => Route(BaseUrl + "/authors/" + a.slug, a.updatedAt, Weekly, 0.7))
  }

  /** The quote routes: the first 1000 featured quotes. */
  function QuoteRoutes(quotes: seq<QuoteRow>): (rs: seq<Route>)
    ensures |rs| <= 1000
    ensures var sel := Take(Filter(quotes, (q: QuoteRow) => q.featured), 1000);
      && |rs| == |sel|
      && forall k :: 0 <= k < |rs| ==>
           && sel[k].featured
           && rs[k] == Route(BaseUrl + "/quotes/" + sel[k].slug, sel[k].updatedAt, Monthly, 0.6)
  {
    var sel := Take(Filter(quotes, (q: QuoteRow) => q.featured), 1000);
    assert forall k :: 0 <= k < |sel| ==> sel[k] in Filter(quotes, (q: QuoteRow) => q.featured);
    Map(sel, (q: QuoteRow) => Route(BaseUrl + "/quotes/" + q.slug, q.updatedAt, Monthly, 0.6))
  }

  function CategoryRoutes(categories: seq<SlugRow>): (rs: seq<Route>)
    ensures |rs| == |categories|
    ensures forall k :: 0 <= k < |rs| ==>
      rs[k] == Route(BaseUrl + "/categories/" + categories[k].slug, categories[k].updatedAt, Weekly, 0.6)
  {
    Map(categories, (c: SlugRow) => Route(BaseUrl + "/categories/" + c.slug, c.updatedAt, Weekly, 0.6))
  }

  /** `.filter(Boolean)` on a list of routes and nulls: the present values, in order. */
  function Present<T>(s: seq<Option<T>>): (r: seq<T>)
    ensures |r| <= |s|
    ensures forall k :: 0 <= k < |r| ==> Some(r[k]) in s
    ensures forall i :: 0 <= i < |s| && s[i].Some? ==> s[i].value in r
  {
    if s == [] then []
    else
      assert forall i :: 1 <= i < |s| ==> s[i] == s[1..][i - 1];
      if s[0].Some? then [s[0].value] + Present(s[1..]) else Present(s[1..])
  }

  /** `filter(Boolean)` keeps each present value once, in order. */
  lemma {:induction false} PresentAppend<T>(a: seq<Option<T>>, b: seq<Option<T>>, x: T)
    ensures Present(a + b) == Present(a) + Present(b)
    ensures Present([Some(x)]) == [x]
    ensures Present<T>([None]) == []
    ensures Present<T>([]) == []
  {
    if a != [] {
      assert (a + b)[1..] == a[1..] + b;
      PresentAppend(a[1..], b, x);
    } else {
      assert a + b == b;
    }
    var none: Option<T> := None;
    assert [Some(x)][1..] == [];
    assert [none][1..] == [];
  }

  /** `max(0.7, 0.9 - index * 0.02)`: from 0.9 down by 0.02 per rank, never below 0.7. */
  function TrendingPriority(index: nat): (p: real)
    ensures 0.7 <= p <= 0.9
    ensures index <= 10 ==> p == 0.9 - (index as real) * 0.02
    ensures index >= 10 ==> p == 0.7
  {
    var raw := 0.9 - (index as real) * 0.02;
    if raw > 0.7 then raw else 0.7
  }

  /** The route of the trending entry at `index`, or none without a quote or slug. */
  function TrendingRoute(row: TrendingRow, index: nat): (r: Option<Route>)
    ensures r.None? <==> row.quote.None? || row.quote.value.slug == ""
    ensures r.Some? ==>
      r.value == Route(BaseUrl + "/quotes/" + row.quote.value.slug, row.quote.value.updatedAt, Daily, TrendingPriority(index))
  {
    if row.quote.None? || row.quote.value.slug == "" then None
    else Some(Route(BaseUrl + "/quotes/" + row.quote.value.slug, row.quote.value.updatedAt, Daily, TrendingPriority(index)))
  }

  /** Each entry is scored by its position among all active trending entries,
      dropped ones included. */
  function TrendingCandidates(rows: seq<TrendingRow>): (c: seq<Option<Route>>)
    ensures |c| == |rows|
    ensures forall i :: 0 <= i < |c| ==> c[i] == TrendingRoute(rows[i], i)
  {
    seq(|rows|, i requires 0 <= i < |rows| => TrendingRoute(rows[i], i))
  }

  function TrendingRoutes(rows: seq<TrendingRow>): (rs: seq<Route>)
    ensures forall k :: 0 <= k < |rs| ==> 0.7 <= rs[k].priority <= 0.9 && rs[k].changeFrequency == Daily
    ensures forall k :: 0 <= k < |rs| ==> exists i :: 0 <= i < |rows| && TrendingRoute(rows[i], i) == Some(rs[k])
    ensures forall i :: 0 <= i < |rows| && rows[i].quote.Some? && rows[i].quote.value.slug != "" ==>
      TrendingRoute(rows[i], i).value in rs
  {
    var c := TrendingCandidates(rows);
    var rs := Present(c);
    forall k | 0 <= k < |rs|
      ensures 0.7 <= rs[k].priority <= 0.9 && rs[k].changeFrequency == Daily
      ensures exists i :: 0 <= i < |rows| && TrendingRoute(rows[i], i) == Some(rs[k])
    {
      var i :| 0 <= i < |c| && c[i] == Some(rs[k]);
      assert TrendingRoute(rows[i], i) == Some(rs[k]);
    }
    rs
  }

  /** One more trending entry adds its route, scored by its position, at the end
      when it has a quote with a slug, and nothing otherwise. */
  lemma TrendingRoutesSnoc(rows: seq<TrendingRow>, row: TrendingRow)
    ensures TrendingRoutes(rows + [row]) ==
      TrendingRoutes(rows) + (if TrendingRoute(row, |rows|).Some? then [TrendingRoute(row, |rows|).value] else [])
  {
    var c := TrendingCandidates(rows);
    var x := TrendingRoute(row, |rows|);
    assert TrendingCandidates(rows + [row]) == c + [x];
    PresentAppend(c, [x], Route("", 0, Daily, 0.0));
    if x.Some? { PresentAppend<Route>([], [], x.value); }
  }

  /** Going down the trending list, priorities never rise. */
  lemma {:induction false} TrendingOrdered(rows: seq<TrendingRow>)
    ensures var rs := TrendingRoutes(rows);
      forall j, k :: 0 <= j < k < |rs| ==> rs[j].priority >= rs[k].priority
  {
    var c := TrendingCandidates(rows);
    forall i, j | 0 <= i < j < |c| && c[i].Some? && c[j].Some?
      ensures c[i].value.priority >= c[j].value.priority
    {
      TrendingMonotone(i, j);
    }
    PresentNonIncreasing(c);
  }

  lemma {:induction false} TrendingMonotone(i: nat, j: nat)
    requires i <= j
    ensures TrendingPriority(i) >= TrendingPriority(j)
  { }

  lemma {:induction false} PresentNonIncreasing(s: seq<Option<Route>>)
    requires forall i, j :: 0 <= i < j < |s| && s[i].Some? && s[j].Some? ==> s[i].value.priority >= s[j].value.priority
    ensures forall j, k :: 0 <= j < k < |Present(s)| ==> Present(s)[j].priority >= Present(s)[k].priority
  {
    if s != [] {
      var tail := s[1..];
      assert forall i :: 1 <= i < |s| ==> s[i] == tail[i - 1];
      PresentNonIncreasing(tail);
      if s[0].Some? {
        var r := Present(s);
        var rt := Present(tail);
        assert r == [s[0].value] + rt;
        forall k | 1 <= k < |r| ensures r[0].priority >= r[k].priority {
          assert Some(rt[k - 1]) in tail;
          var i :| 0 <= i < |tail| && tail[i] == Some(rt[k - 1]);
          assert s[i + 1] == Some(rt[k - 1]);
        }
      }
    }
  }

  /** The page of a birthday, `<month name>_<day>`, or none when the month or
      the day is missing or 0. `monthName(i)` is `MONTH_NAMES[i]`. */
  function BirthdayRoute(group: BirthdayGroup, monthName: int -> string, now: int): (r: Option<Route>)
    ensures r.None? <==> Or(group.bornMonth, 0) == 0 || Or(group.bornDay, 0) == 0
    ensures r.Some? ==>
      var m := group.bornMonth.value;
      var d := group.bornDay.value;
      r.value == Route(BaseUrl + "/birthdays/" + monthName(m - 1) + "_" + JsText.IntToString(d), now, Monthly, 0.6)
  {
    if Or(group.bornMonth, 0) == 0 || Or(group.bornDay, 0) == 0 then None
    else
      var m := group.bornMonth.value;
      var d := group.bornDay.value;
      Some(Route(BaseUrl + "/birthdays/" + monthName(m - 1) + "_" + JsText.IntToString(d), now, Monthly, 0.6))
  }

  /** `BirthdayRoute` for one group, as the function `map` applies. */
  function BirthdayOf(monthName: int -> string, now: int): BirthdayGroup -> Option<Route> {
    (g: BirthdayGroup) => BirthdayRoute(g, monthName, now)
  }

  function BirthdayRoutes(groups: seq<BirthdayGroup>, monthName: int -> string, now: int): (rs: seq<Route>)
    ensures forall k :: 0 <= k < |rs| ==> exists i :: 0 <= i < |groups| && BirthdayRoute(groups[i], monthName, now) == Some(rs[k])
    ensures forall i :: 0 <= i < |groups| && BirthdayRoute(groups[i], monthName, now).Some? ==>
      BirthdayRoute(groups[i], monthName, now).value in rs
  {
    var c := Map(groups, BirthdayOf(monthName, now));
    var rs := Present(c);
    forall k | 0 <= k < |rs|
      ensures exists i :: 0 <= i < |groups| && BirthdayRoute(groups[i], monthName, now) == Some(rs[k])
    {
      var i :| 0 <= i < |c| && c[i] == Some(rs[k]);
      assert BirthdayRoute(groups[i], monthName, now) == Some(rs[k]);
    }
    rs
  }

  /** The birthday routes of two lists of groups are those of each, in order,
      and a single group gives its route exactly when it has one. */
  lemma BirthdayRoutesAppend(a: seq<BirthdayGroup>, b: seq<BirthdayGroup>, g: BirthdayGroup,
                             monthName: int -> string, now: int)
    ensures BirthdayRoutes(a + b, monthName, now) == BirthdayRoutes(a, monthName, now) + BirthdayRoutes(b, monthName, now)
    ensures BirthdayRoutes([g], monthName, now) ==
      if BirthdayRoute(g, monthName, now).Some? then [BirthdayRoute(g, monthName, now).value] else []
  {
    var f := BirthdayOf(monthName, now);
    MapAppend(a, b, f);
    PresentAppend(Map(a, f), Map(b, f), Route("", 0, Monthly, 0.0));
    var x := BirthdayRoute(g, monthName, now);
    assert Map([g], f) == [x];
    if x.Some? { PresentAppend<Route>([], [], x.value); }
    else { PresentAppend<Route>([], [], Route("", 0, Monthly, 0.0)); }
  }

  /** The candidates in the order they are combined: static routes first. */
  function AllRoutes(now: int, authors: seq<SlugRow>, quotes: seq<QuoteRow>, trending: seq<TrendingRow>,
                     categories: seq<SlugRow>, tags: seq<TagRow>, birthdays: seq<BirthdayGroup>,
                     monthName: int -> string): (rs: seq<Route>)
    ensures |rs| >= 8 && rs[..8] == StaticRoutes(now)
  {
    var fixed := StaticRoutes(now);
    var dynamic := AuthorRoutes(authors) + QuoteRoutes(quotes) + TrendingRoutes(trending)
                   + CategoryRoutes(categories) + TagRoutes(tags, now) + BirthdayRoutes(birthdays, monthName, now);
    assert (fixed + dynamic)[..8] == fixed;
    fixed + dynamic
  }

  /** The candidate kept for `url`: the first one with the highest priority,
      or -1 when no candidate has the URL. */
  function WinnerIndex(rs: seq<Route>, url: string): (w: int)
    ensures -1 <= w < |rs|
    ensures w == -1 <==> forall k :: 0 <= k < |rs| ==> rs[k].url != url
    ensures w >= 0 ==> rs[w].url == url
    decreases |rs|
  {
    if rs == [] then -1
    else
      var last := |rs| - 1;
      var w := WinnerIndex(rs[..last], url);
      if rs[last].url != url then w
      else if w == -1 || rs[w].priority < rs[last].priority then last
      else w
  }

  /** The kept candidate has the highest priority for its URL, and every
      earlier candidate with that URL has a strictly lower one. */
  lemma {:induction false} WinnerIsBest(rs: seq<Route>, url: string)
    requires WinnerIndex(rs, url) >= 0
    ensures var w := WinnerIndex(rs, url);
      && (forall k :: 0 <= k < |rs| && rs[k].url == url ==> rs[k].priority <= rs[w].priority)
      && (forall k :: 0 <= k < w && rs[k].url == url ==> rs[k].priority < rs[w].priority)
    decreases |rs|
  {
    var last := |rs| - 1;
    var pre := rs[..last];
    var w0 := WinnerIndex(pre, url);
    assert forall k :: 0 <= k < last ==> pre[k] == rs[k];
    if w0 >= 0 {
      WinnerIsBest(pre, url);
    }
  }

  /** The position of the first candidate with `url`, or -1. */
  function FirstIndex(rs: seq<Route>, url: string): (i: int)
    ensures -1 <= i < |rs|
    ensures i == -1 <==> forall k :: 0 <= k < |rs| ==> rs[k].url != url
    ensures i >= 0 ==> rs[i].url == url && forall k :: 0 <= k < i ==> rs[k].url != url
    decreases |rs|
  {
    if rs == [] then -1
    else
      var last := |rs| - 1;
      var i := FirstIndex(rs[..last], url);
      if i >= 0 then i else if rs[last].url == url then last else -1
  }

  /** One more candidate, as the loop step sees it: the winner and the first
      position of a URL. */
  lemma {:induction false} ExtendAt(pre: seq<Route>, r: Route, url: string)
    ensures forall j :: 0 <= j < |pre| ==> (pre + [r])[j] == pre[j]
    ensures (pre + [r])[|pre|] == r
    ensures var w := WinnerIndex(pre, url);
      WinnerIndex(pre + [r], url) ==
        if r.url != url then w else if w == -1 || pre[w].priority < r.priority then |pre| else w
    ensures var f := FirstIndex(pre, url);
      FirstIndex(pre + [r], url) == if f >= 0 then f else if r.url == url then |pre| else -1
  {
    assert (pre + [r])[..|pre|] == pre;
  }

  /** What the map holds after the candidates `pre`: each URL once, in the
      order of its first candidate, with its winning candidate, and every
      URL seen so far. */
  ghost predicate Holds(pre: seq<Route>, m: seq<Entry<string, Route>>) {
    && DistinctKeys(m)
    && UrlsMatch(m)
    && Winners(pre, m)
    && AllSeen(pre, m)
    && FirstOrdered(pre, m)
  }

  ghost predicate UrlsMatch(m: seq<Entry<string, Route>>) {
    forall t :: 0 <= t < |m| ==> m[t].val.url == m[t].key
  }

  ghost predicate Winners(pre: seq<Route>, m: seq<Entry<string, Route>>) {
    forall t :: 0 <= t < |m| ==> WinnerIndex(pre, m[t].key) >= 0 && m[t].val == pre[WinnerIndex(pre, m[t].key)]
  }

  ghost predicate AllSeen(pre: seq<Route>, m: seq<Entry<string, Route>>) {
    forall k :: 0 <= k < |pre| ==> Find(m, pre[k].url) >= 0
  }

  ghost predicate FirstOrdered(pre: seq<Route>, m: seq<Entry<string, Route>>) {
    forall s, t :: 0 <= s < t < |m| ==> FirstIndex(pre, m[s].key) < FirstIndex(pre, m[t].key)
  }

  /** URLs other than the candidate's keep their winner and first position. */
  lemma {:induction false} OtherKeys(pre: seq<Route>, r: Route, m: seq<Entry<string, Route>>, t: nat)
    requires Winners(pre, m) && t < |m| && m[t].key != r.url
    ensures WinnerIndex(pre + [r], m[t].key) == WinnerIndex(pre, m[t].key)
    ensures m[t].val == (pre + [r])[WinnerIndex(pre, m[t].key)]
    ensures FirstIndex(pre + [r], m[t].key) == FirstIndex(pre, m[t].key)
    ensures 0 <= FirstIndex(pre, m[t].key) < |pre|
  {
    ExtendAt(pre, r, m[t].key);
  }

  /** A URL not in the map yet is appended with this candidate. */
  lemma {:induction false} StepNew(pre: seq<Route>, r: Route, m: seq<Entry<string, Route>>)
    requires Holds(pre, m) && Find(m, r.url) == -1
    ensures Holds(pre + [r], Set(m, r.url, r))
  {
    assert Set(m, r.url, r) == m + [Entry(r.url, r)];
    assert forall k :: 0 <= k < |pre| ==> pre[k].url != r.url by {
      assert AllSeen(pre, m);
    }
    NewDistinct(m, Entry(r.url, r));
    NewWinners(pre, r, m);
    NewSeen(pre, r, m);
    NewOrdered(pre, r, m);
  }

  lemma {:induction false} NewDistinct(m: seq<Entry<string, Route>>, e: Entry<string, Route>)
    requires DistinctKeys(m) && forall t :: 0 <= t < |m| ==> m[t].key != e.key
    ensures DistinctKeys(m + [e])
  {
    var m' := m + [e];
    forall s, t | 0 <= s < t < |m'| ensures m'[s].key != m'[t].key {
      assert m'[s] == m[s];
    }
  }

  lemma {:induction false} NewWinners(pre: seq<Route>, r: Route, m: seq<Entry<string, Route>>)
    requires Winners(pre, m) && Find(m, r.url) == -1
    requires forall k :: 0 <= k < |pre| ==> pre[k].url != r.url
    ensures Winners(pre + [r], m + [Entry(r.url, r)])
  {
    var pre' := pre + [r];
    var m' := m + [Entry(r.url, r)];
    ExtendAt(pre, r, r.url);
    forall t | 0 <= t < |m'|
      ensures WinnerIndex(pre', m'[t].key) >= 0 && m'[t].val == pre'[WinnerIndex(pre', m'[t].key)]
    {
      if t < |m| {
        assert m'[t] == m[t];
        OtherKeys(pre, r, m, t);
      }
    }
  }

  lemma {:induction false} NewSeen(pre: seq<Route>, r: Route, m: seq<Entry<string, Route>>)
    requires AllSeen(pre, m)
    ensures AllSeen(pre + [r], m + [Entry(r.url, r)])
  {
    var pre' := pre + [r];
    var m' := m + [Entry(r.url, r)];
    forall k | 0 <= k < |pre'| ensures Find(m', pre'[k].url) >= 0 {
      if k < |pre| {
        var g := Find(m, pre[k].url);
        assert m'[g].key == pre'[k].url;
      } else {
        assert m'[|m|].key == pre'[k].url;
      }
    }
  }

  lemma {:induction false} NewOrdered(pre: seq<Route>, r: Route, m: seq<Entry<string, Route>>)
    requires Winners(pre, m) && FirstOrdered(pre, m) && Find(m, r.url) == -1
    requires forall k :: 0 <= k < |pre| ==> pre[k].url != r.url
    ensures FirstOrdered(pre + [r], m + [Entry(r.url, r)])
  {
    var pre' := pre + [r];
    var m' := m + [Entry(r.url, r)];
    ExtendAt(pre, r, r.url);
    assert FirstIndex(pre', r.url) == |pre|;
    forall t | 0 <= t < |m'|
      ensures t < |m| ==> 0 <= FirstIndex(pre', m'[t].key) == FirstIndex(pre, m[t].key) < |pre|
      ensures t == |m| ==> FirstIndex(pre', m'[t].key) == |pre|
    {
      if t < |m| {
        assert m'[t] == m[t];
        OtherKeys(pre, r, m, t);
      }
    }
  }

  /** A URL in the map takes this candidate when its priority is higher. */
  lemma {:induction false} StepReplace(pre: seq<Route>, r: Route, m: seq<Entry<string, Route>>, f: nat)
    requires Holds(pre, m) && f == Find(m, r.url) && f >= 0 && m[f].val.priority < r.priority
    ensures Holds(pre + [r], Set(m, r.url, r))
  {
    SetReplaces(m, r, f);
    ReplaceShape(m, r, f);
    ReplaceWinners(pre, r, m, f);
    ReplaceSeen(pre, r, m, f);
    ReplaceOrdered(pre, r, m, f);
  }

  /** Setting a URL the map holds rewrites its entry in place. */
  lemma {:induction false} SetReplaces(m: seq<Entry<string, Route>>, r: Route, f: nat)
    requires DistinctKeys(m) && f == Find(m, r.url) && f >= 0
    ensures Set(m, r.url, r) == m[f := Entry(r.url, r)]
  { }

  lemma {:induction false} ReplaceShape(m: seq<Entry<string, Route>>, r: Route, f: nat)
    requires DistinctKeys(m) && UrlsMatch(m) && f == Find(m, r.url) && f >= 0
    ensures DistinctKeys(m[f := Entry(r.url, r)]) && UrlsMatch(m[f := Entry(r.url, r)])
  {
    var m' := m[f := Entry(r.url, r)];
    assert forall t :: 0 <= t < |m'| ==> m'[t].key == m[t].key;
  }

  lemma {:induction false} ReplaceWinners(pre: seq<Route>, r: Route, m: seq<Entry<string, Route>>, f: nat)
    requires Winners(pre, m) && UrlsMatch(m) && DistinctKeys(m) && f == Find(m, r.url) && f >= 0 && m[f].val.priority < r.priority
    ensures Winners(pre + [r], m[f := Entry(r.url, r)])
  {
    var pre' := pre + [r];
    var m' := m[f := Entry(r.url, r)];
    assert WinnerIndex(pre', r.url) == |pre| by {
      assert m[f].key == r.url;
      var w := WinnerIndex(pre, r.url);
      assert w >= 0 && pre[w] == m[f].val;
      ExtendAt(pre, r, r.url);
    }
    forall t | 0 <= t < |m'|
      ensures WinnerIndex(pre', m'[t].key) >= 0 && m'[t].val == pre'[WinnerIndex(pre', m'[t].key)]
    {
      if t != f {
        OtherKeys(pre, r, m, t);
      } else {
        assert pre'[|pre|] == r;
      }
    }
  }

  lemma {:induction false} ReplaceSeen(pre: seq<Route>, r: Route, m: seq<Entry<string, Route>>, f: nat)
    requires AllSeen(pre, m) && f == Find(m, r.url) && f >= 0
    ensures AllSeen(pre + [r], m[f := Entry(r.url, r)])
  {
    var pre' := pre + [r];
    var m' := m[f := Entry(r.url, r)];
    forall k | 0 <= k < |pre'| ensures Find(m', pre'[k].url) >= 0 {
      if k < |pre| {
        var g := Find(m, pre[k].url);
        assert m'[g].key == pre'[k].url;
      } else {
        assert m'[f].key == pre'[k].url;
      }
    }
  }

  lemma {:induction false} ReplaceOrdered(pre: seq<Route>, r: Route, m: seq<Entry<string, Route>>, f: nat)
    requires Winners(pre, m) && FirstOrdered(pre, m) && f == Find(m, r.url) && f >= 0
    ensures FirstOrdered(pre + [r], m[f := Entry(r.url, r)])
  {
    var pre' := pre + [r];
    var m' := m[f := Entry(r.url, r)];
    forall t | 0 <= t < |m'| ensures FirstIndex(pre', m'[t].key) == FirstIndex(pre, m[t].key) {
      assert m'[t].key == m[t].key;
      KeepsFirst(pre, r, m[t].key);
    }
  }

  /** A URL already seen keeps its first position. */
  lemma {:induction false} KeepsFirst(pre: seq<Route>, r: Route, url: string)
    requires WinnerIndex(pre, url) >= 0
    ensures FirstIndex(pre + [r], url) == FirstIndex(pre, url) >= 0
  {
    assert pre[WinnerIndex(pre, url)].url == url;
    ExtendAt(pre, r, url);
  }

  /** Otherwise the map is left as it is. */
  lemma {:induction false} StepKeep(pre: seq<Route>, r: Route, m: seq<Entry<string, Route>>, f: nat)
    requires Holds(pre, m) && f == Find(m, r.url) && f >= 0 && !(m[f].val.priority < r.priority)
    ensures Holds(pre + [r], m)
  {
    KeepWinners(pre, r, m, f);
    KeepSeen(pre, r, m, f);
    KeepOrdered(pre, r, m, f);
  }

  lemma {:induction false} KeepWinners(pre: seq<Route>, r: Route, m: seq<Entry<string, Route>>, f: nat)
    requires Winners(pre, m) && UrlsMatch(m) && DistinctKeys(m)
    requires f == Find(m, r.url) && f >= 0 && !(m[f].val.priority < r.priority)
    ensures Winners(pre + [r], m)
  {
    var pre' := pre + [r];
    ExtendAt(pre, r, r.url);
    forall t | 0 <= t < |m|
      ensures WinnerIndex(pre', m[t].key) >= 0 && m[t].val == pre'[WinnerIndex(pre', m[t].key)]
    {
      if t != f {
        OtherKeys(pre, r, m, t);
      }
    }
  }

  lemma {:induction false} KeepSeen(pre: seq<Route>, r: Route, m: seq<Entry<string, Route>>, f: nat)
    requires AllSeen(pre, m) && f == Find(m, r.url) && f >= 0
    ensures AllSeen(pre + [r], m)
  {
    var pre' := pre + [r];
    forall k | 0 <= k < |pre'| ensures Find(m, pre'[k].url) >= 0 {
      if k == |pre| {
        assert pre'[k].url == r.url;
      } else {
        assert pre'[k] == pre[k];
      }
    }
  }

  lemma {:induction false} KeepOrdered(pre: seq<Route>, r: Route, m: seq<Entry<string, Route>>, f: nat)
    requires Winners(pre, m) && FirstOrdered(pre, m) && DistinctKeys(m) && f == Find(m, r.url) && f >= 0
    ensures FirstOrdered(pre + [r], m)
  {
    var pre' := pre + [r];
    forall t | 0 <= t < |m| ensures FirstIndex(pre', m[t].key) == FirstIndex(pre, m[t].key) {
      if t != f {
        OtherKeys(pre, r, m, t);
      } else {
        KeepsFirst(pre, r, m[t].key);
      }
    }
  }

  /** One turn of the deduplication loop: `urlMap.get(route.url)`, then
      `urlMap.set(route.url, route)` when the URL is new or the route
      outranks the one held. */
  function Next(m: seq<Entry<string, Route>>, r: Route): (m': seq<Entry<string, Route>>)
    requires DistinctKeys(m)
    ensures DistinctKeys(m')
    ensures Get(m', r.url).Some? && r.priority <= Get(m', r.url).value.priority
    ensures Get(m, r.url).Some? ==> Get(m, r.url).value.priority <= Get(m', r.url).value.priority
    ensures Get(m, r.url).Some? && r.priority <= Get(m, r.url).value.priority ==> m' == m
    ensures |m| <= |m'| && forall t :: 0 <= t < |m| && m[t].key != r.url ==> m'[t] == m[t]
  {
    match Get(m, r.url)
    case None => Set(m, r.url, r)
    case Some(held) => if held.priority < r.priority then Set(m, r.url, r) else m
  }

  /** One more candidate keeps the map's invariant. */
  lemma {:induction false} Advance(routes: seq<Route>, i: nat, m: seq<Entry<string, Route>>)
    requires i < |routes| && Holds(routes[..i], m)
    ensures Holds(routes[..i + 1], Next(m, routes[i]))
  {
    var r := routes[i];
    assert routes[..i + 1] == routes[..i] + [r];
    GetFind(m, r.url);
    if Get(m, r.url).None? {
      StepNew(routes[..i], r, m);
    } else if Get(m, r.url).value.priority < r.priority {
      StepReplace(routes[..i], r, m, Find(m, r.url));
    } else {
      StepKeep(routes[..i], r, m, Find(m, r.url));
    }
  }

  /** `result` is `routes` deduplicated by URL: each URL once, every
      candidate's URL present, each kept route the winner for its URL with
      the highest priority among its candidates, in the order of first
      occurrence. */
  predicate Deduplicated(routes: seq<Route>, result: seq<Route>) {
    && (forall j, k :: 0 <= j < k < |result| ==> result[j].url != result[k].url)
    && (forall k :: 0 <= k < |routes| ==> FirstIndex(result, routes[k].url) >= 0)
    && (forall j :: 0 <= j < |result| ==>
          WinnerIndex(routes, result[j].url) >= 0 && result[j] == routes[WinnerIndex(routes, result[j].url)])
    && (forall j, k :: 0 <= j < k < |result| ==> FirstIndex(routes, result[j].url) < FirstIndex(routes, result[k].url))
    && (forall j, k :: 0 <= j < |result| && 0 <= k < |routes| && routes[k].url == result[j].url ==>
          routes[k].priority <= result[j].priority)
  }

  /** The values of the map built from all candidates. */
  lemma {:induction false} Finish(routes: seq<Route>, m: seq<Entry<string, Route>>)
    requires Holds(routes[..|routes|], m)
    ensures Deduplicated(routes, Values(m))
  {
    assert routes[..|routes|] == routes;
    DedupeResult(routes, m);
    KeptIsBest(routes, Values(m));
  }

  /** The deduplication: a `Map` from URL to route, set when the URL is new
      or the route has a higher priority than the one held, then its values.
      Every URL appears once, in the order of its first candidate, holding
      the winning candidate. */
  method Dedupe(routes: seq<Route>) returns (result: seq<Route>)
    ensures Deduplicated(routes, result)
  {
    var urlMap: seq<Entry<string, Route>> := [];
    var i := 0;
    while i < |routes|
      invariant 0 <= i <= |routes|
      invariant Holds(routes[..i], urlMap)
    {
      var route := routes[i];
      Advance(routes, i, urlMap);
      urlMap := Next(urlMap, route);
      i := i + 1;
    }
    result := Values(urlMap);
    Finish(routes, urlMap);
  }

  /** Each kept route has the highest priority among the candidates with its URL. */
  lemma {:induction false} KeptIsBest(routes: seq<Route>, result: seq<Route>)
    requires forall j :: 0 <= j < |result| ==>
      WinnerIndex(routes, result[j].url) >= 0 && result[j] == routes[WinnerIndex(routes, result[j].url)]
    ensures forall j, k :: 0 <= j < |result| && 0 <= k < |routes| && routes[k].url == result[j].url ==>
      routes[k].priority <= result[j].priority
  {
    forall j | 0 <= j < |result|
      ensures forall k :: 0 <= k < |routes| && routes[k].url == result[j].url ==> routes[k].priority <= result[j].priority
    {
      WinnerIsBest(routes, result[j].url);
    }
  }

  /** The map's values once every candidate is in. */
  lemma {:induction false} DedupeResult(routes: seq<Route>, m: seq<Entry<string, Route>>)
    requires Holds(routes, m)
    ensures var result := Values(m);
      && (forall j, k :: 0 <= j < k < |result| ==> result[j].url != result[k].url)
      && (forall k :: 0 <= k < |routes| ==> FirstIndex(result, routes[k].url) >= 0)
      && (forall j :: 0 <= j < |result| ==>
            WinnerIndex(routes, result[j].url) >= 0 && result[j] == routes[WinnerIndex(routes, result[j].url)])
      && (forall j, k :: 0 <= j < k < |result| ==> FirstIndex(routes, result[j].url) < FirstIndex(routes, result[k].url))
  {
    var result := Values(m);
    assert forall j :: 0 <= j < |result| ==> result[j].url == m[j].key;
    forall k | 0 <= k < |routes| ensures FirstIndex(result, routes[k].url) >= 0 {
      var j := Find(m, routes[k].url);
      assert result[j].url == routes[k].url;
    }
  }

  /** `sitemap()`: the candidates deduplicated by URL. The database rows
      and `MONTH_NAMES` are parameters. */
  method Generate(now: int, authors: seq<SlugRow>, quotes: seq<QuoteRow>, trending: seq<TrendingRow>,
                  categories: seq<SlugRow>, tags: seq<TagRow>, birthdays: seq<BirthdayGroup>,
                  monthName: int -> string) returns (sitemap: seq<Route>)
    ensures Deduplicated(AllRoutes(now, authors, quotes, trending, categories, tags, birthdays, monthName), sitemap)
  {
    var all := AllRoutes(now, authors, quotes, trending, categories, tags, birthdays, monthName);
    sitemap := Dedupe(all);
  }
}
