/** The `/api/search/suggestions` route: it normalises the query, the limit
    and the trending switch, then answers with popular searches (scored by
    rank) for an empty query, with looked-up suggestions for a non-empty one,
    and with nothing otherwise. The analytics service is given as functions;
    scores are exact rationals. */
module SuggestionsRoute {
  import opened Common
  import JsText

  datatype Suggestion = Suggestion(query: string, score: real)

  /** `{ suggestions, popular? }`. */
  datatype SuggestionsData = SuggestionsData(suggestions: seq<Suggestion>, popular: Option<seq<Suggestion>>)

  datatype Params = Params(query: string, limit: int, includeTrending: bool)

  /** `q?.trim() || ""`, `Math.min(10, Math.max(1, limit || 5))`, and
      trending unless the parameter is exactly `"false"`. */
  function Normalise(q: Option<string>, limitParam: Option<int>, includeTrending: Option<string>): (p: Params)
    ensures q.None? ==> p.query == ""
    ensures q.Some? ==> p.query == JsText.Trim(q.value)
    ensures p.limit == Clamp(Or(limitParam, 5), 1, 10) && 1 <= p.limit <= 10
    ensures !p.includeTrending <==> includeTrending == Some("false")
  {
    Params(if q.Some? then JsText.Trim(q.value) else "", Clamp(Or(limitParam, 5), 1, 10),
           includeTrending != Some("false"))
  }

  /** The score of the search at `index` among `n`: `1 - index / n`. */
  function Score(index: nat, n: nat): real
    requires index < n
  {
    1.0 - (index as real) / (n as real)
  }

  /** The popular searches as suggestions, in order, scored by position. */
  function PopularScores(queries: seq<string>): (r: seq<Suggestion>)
    ensures |r| == |queries|
    ensures forall k :: 0 <= k < |r| ==> r[k].query == queries[k] && r[k].score == Score(k, |queries|)
  {
    seq(|queries|, k requires 0 <= k < |queries| => Suggestion(queries[k], Score(k, |queries|)))
  }

  /** The first score is 1, the scores strictly decrease with rank, and
      every score is positive. */
  lemma PopularScoresOrdered(queries: seq<string>)
    ensures |queries| > 0 ==> PopularScores(queries)[0].score == 1.0
    ensures forall i, j :: 0 <= i < j < |queries| ==> PopularScores(queries)[i].score > PopularScores(queries)[j].score
    ensures forall i :: 0 <= i < |queries| ==> 0.0 < PopularScores(queries)[i].score <= 1.0
  {
    var r := PopularScores(queries);
    var n := |queries| as real;
    forall i, j | 0 <= i < j < |queries| ensures r[i].score > r[j].score {
      assert (i as real) / n < (j as real) / n by {
        assert (i as real) < (j as real);
        DivideMonotone(i as real, j as real, n);
      }
    }
    forall i | 0 <= i < |queries| ensures 0.0 < r[i].score <= 1.0 {
      assert (i as real) / n < 1.0 by {
        DivideMonotone(i as real, n, n);
      }
      assert 0.0 <= (i as real) / n;
    }
  }

  lemma DivideMonotone(a: real, b: real, n: real)
    requires a < b && n > 0.0
    ensures a / n < b / n
  {
    assert b / n - a / n == (b - a) / n;
  }

  /** `GET`. `popular(limit)` is the analytics service's popular search
      queries and `suggest(query, limit)` its suggestions; any failure of
      either is a 500 INTERNAL_ERROR. */
  function Get(q: Option<string>, limitParam: Option<int>, includeTrending: Option<string>,
               popular: int -> Result<seq<string>>,
               suggest: (string, int) -> Result<seq<Suggestion>>): (r: Response<SuggestionsData>)
    ensures var p := Normalise(q, limitParam, includeTrending);
      && (p.query == "" && p.includeTrending ==>
            r == if popular(p.limit).Ok?
                 then Json(SuggestionsData([], Some(PopularScores(popular(p.limit).value))))
                 else ErrorJson(InternalError, 500))
      && (p.query != "" ==>
            r == if suggest(p.query, p.limit).Ok?
                 then Json(SuggestionsData(suggest(p.query, p.limit).value, None))
                 else ErrorJson(InternalError, 500))
      && (p.query == "" && !p.includeTrending ==> r == Json(SuggestionsData([], None)))
    ensures r.ErrorJson? ==> r == ErrorJson(InternalError, 500)
  {
    var p := Normalise(q, limitParam, includeTrending);
    if p.query == "" && p.includeTrending then
      match popular(p.limit)
      case Ok(qs) => Json(SuggestionsData([], Some(PopularScores(qs))))
      case Err(_) => ErrorJson(InternalError, 500)
    else if p.query != "" then
      match suggest(p.query, p.limit)
      case Ok(s) => Json(SuggestionsData(s, None))
      case Err(_) => ErrorJson(InternalError, 500)
    else Json(SuggestionsData([], None))
  }

  /** A whitespace-only query counts as empty. */
  lemma {:induction false} BlankQueryIsEmpty(q: string, limitParam: Option<int>, includeTrending: Option<string>)
    requires forall k :: 0 <= k < |q| ==> JsText.IsSpace(q[k])
    ensures Normalise(Some(q), limitParam, includeTrending).query == ""
  {
    JsText.TrimEmptyIff(q);
  }
}
