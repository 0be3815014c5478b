/** `getRecipeCardInfos`: one search request to the recipe provider, one bulk
    information request for the ids it returned, and the projection of each
    bulk entry onto a recipe card. The two HTTP calls are not modelled: their
    outcomes are inputs, and the result records which requests were issued
    with which parameters. */
module Requests {
  import opened Wrappers
  import opened Strings

  /** The function's parameters; `query` and `sort` may be omitted. */
  datatype CardInfoParams = CardInfoParams(query: Option<string>, sort: Option<string>, number: int)

  /** A request to the provider: `/complexSearch` with its query parameters, or
      `/informationBulk` with its `ids` parameter. */
  datatype Request =
    | ComplexSearch(query: string, sort: string, number: int)
    | InformationBulk(ids: string)

  /** One entry of the provider's bulk information response. */
  datatype BulkInfo = BulkInfo(
    id: nat,
    imageType: string,
    spoonacularScore: Option<real>,
    readyInMinutes: int,
    title: string)

  /** The view model of a recipe card. */
  datatype Card = Card(
    id: nat,
    href: string,
    imageURL: string,
    isFavorite: bool,
    rating: real,
    timeInMinutes: int,
    title: string)

  /** What an awaited HTTP call produced: a response body, or the error it threw. */
  datatype Http<T> = Response(body: T) | Thrown(error: string)

  /** The returned `{ data, error }` pair, with the requests that were issued. */
  datatype CardInfos = CardInfos(data: Option<seq<Card>>, error: Option<string>, issued: seq<Request>)

  /** The search request: an omitted query or sort is sent as "". */
  function SearchRequest(params: CardInfoParams): (r: Request)
    ensures r.ComplexSearch? && r.number == params.number
    ensures params.query.None? ==> r.query == ""
    ensures params.sort.None? ==> r.sort == ""
    ensures params.query.Some? ==> r.query == params.query.value
    ensures params.sort.Some? ==> r.sort == params.sort.value
  {
    ComplexSearch(params.query.GetOr(""), params.sort.GetOr(""), params.number)
  }

  /** `results.map((re) => re.id).join(",")`. */
  function IdsParam(resultIds: seq<nat>): (r: string)
    ensures r == "" <==> resultIds == []
    ensures forall k :: 0 <= k < |r| ==> IsDigit(r[k]) || r[k] == ','
  {
    var parts := seq(|resultIds|, i requires 0 <= i < |resultIds| => NatToString(resultIds[i]));
    JoinOfDigits(parts);
    if resultIds == [] then
      Join(parts, ',')
    else
      JoinNonEmpty(parts, ',');
      Join(parts, ',')
  }

  /** Joining runs of digits with commas leaves only digits and commas. */
  lemma {:induction false} JoinOfDigits(parts: seq<string>)
    requires forall i :: 0 <= i < |parts| ==> AllDigits(parts[i])
    ensures forall k :: 0 <= k < |Join(parts, ',')| ==> IsDigit(Join(parts, ',')[k]) || Join(parts, ',')[k] == ','
  {
    if |parts| > 1 {
      JoinOfDigits(parts[1..]);
      var tail := Join(parts[1..], ',');
      assert Join(parts, ',') == parts[0] + [','] + tail;
      forall k | 0 <= k < |Join(parts, ',')|
        ensures IsDigit(Join(parts, ',')[k]) || Join(parts, ',')[k] == ','
      {
        if k > |parts[0]| {
          assert Join(parts, ',')[k] == tail[k - |parts[0]| - 1];
        }
      }
    } else if |parts| == 1 {
      assert AllDigits(parts[0]);
    }
  }

  /** Reads a comma-separated id list back; the empty text is the empty list. */
  function ParseIdsParam(s: string): Option<seq<nat>> {
    if s == "" then Some([]) else ParseAll(Split(s, ','))
  }

  function ParseAll(parts: seq<string>): Option<seq<nat>> {
    if parts == [] then Some([])
    else
      match (ParseNat(parts[0]), ParseAll(parts[1..]))
      case (Some(n), Some(rest)) => Some([n] + rest)
      case _ => None
  }

  lemma {:induction false} ParseAllNatStrings(ids: seq<nat>)
    ensures ParseAll(seq(|ids|, i requires 0 <= i < |ids| => NatToString(ids[i]))) == Some(ids)
  {
    var parts := seq(|ids|, i requires 0 <= i < |ids| => NatToString(ids[i]));
    if ids != [] {
      NatToStringRoundTrip(ids[0]);
      assert parts[1..] == seq(|ids[1..]|, i requires 0 <= i < |ids[1..]| => NatToString(ids[1..][i]));
      ParseAllNatStrings(ids[1..]);
      assert [ids[0]] + ids[1..] == ids;
    }
  }

  lemma {:induction false} JoinNonEmpty(parts: seq<string>, sep: char)
    requires |parts| >= 1 && |parts[0]| >= 1
    ensures Join(parts, sep) != ""
  {
    if |parts| > 1 {
      assert |Join(parts, sep)| >= |parts[0]|;
    }
  }

  /** The `ids` parameter lists the search results' ids in result order:
      reading it back gives exactly those ids. */
  lemma IdsParamRoundTrip(resultIds: seq<nat>)
    ensures ParseIdsParam(IdsParam(resultIds)) == Some(resultIds)
  {
    var parts := seq(|resultIds|, i requires 0 <= i < |resultIds| => NatToString(resultIds[i]));
    if resultIds != [] {
      forall k | 0 <= k < |parts| ensures ',' !in parts[k] {
        var d := parts[k];
        forall j | 0 <= j < |d| ensures d[j] != ',' { assert IsDigit(d[j]); }
      }
      SplitJoin(parts, ',');
      JoinNonEmpty(parts, ',');
      ParseAllNatStrings(resultIds);
    }
  }

  /** `re.spoonacularScore ? re.spoonacularScore : 0`. */
  function RatingOf(score: Option<real>): real {
    if score.Some? && score.value != 0.0 then score.value else 0.0
  }

  /** The truthiness test amounts to defaulting a missing score to 0. */
  lemma RatingIsScoreOrZero(score: Option<real>)
    ensures RatingOf(score) == score.GetOr(0.0)
  {
  }

  /** The card for one bulk entry: its own page, the provider's 556x370 image
      of that recipe, never a favourite yet, the score or 0, and the ready
      time and title as given. */
  function ToCard(info: BulkInfo): (c: Card)
    ensures c.id == info.id && c.title == info.title && c.timeInMinutes == info.readyInMinutes
    ensures c.href == "/recipes/" + NatToString(info.id)
    ensures c.imageURL == "https://spoonacular.com/recipeImages/" + NatToString(info.id) + "-556x370." + info.imageType
    ensures !c.isFavorite
    ensures c.rating == info.spoonacularScore.GetOr(0.0)
  {
    Card(
      info.id,
      "/recipes/" + NatToString(info.id),
      "https://spoonacular.com/recipeImages/" + NatToString(info.id) + "-556x370." + info.imageType,
      false,
      RatingOf(info.spoonacularScore),
      info.readyInMinutes,
      info.title)
  }

  /** Distinct recipes get distinct card links. */
  lemma CardHrefsDistinct(a: BulkInfo, b: BulkInfo)
    requires a.id != b.id
    ensures ToCard(a).href != ToCard(b).href
  {
    var prefix := "/recipes/";
    if ToCard(a).href == ToCard(b).href {
      assert ToCard(a).href[|prefix|..] == NatToString(a.id);
      assert ToCard(b).href[|prefix|..] == NatToString(b.id);
      NatToStringInjective(a.id, b.id);
    }
  }

  /** `getRecipeCardInfos`. `search` is the outcome of the search request
      (the ids of its results), `bulk` that of the bulk request issued for
      those ids. A failure of either call ends in `{ data: null, error }`;
      otherwise there is one card per bulk entry, in order, and no error. */
  function GetRecipeCardInfos(params: CardInfoParams, search: Http<seq<nat>>, bulk: Http<seq<BulkInfo>>): (r: CardInfos)
    ensures r.data.Some? <==> r.error.None?
    ensures r.data.Some? <==> search.Response? && bulk.Response?
    ensures r.data.Some? ==>
              |r.data.value| == |bulk.body|
              && forall i :: 0 <= i < |bulk.body| ==> r.data.value[i] == ToCard(bulk.body[i])
    ensures search.Thrown? ==> r.error == Some(search.error) && r.issued == [SearchRequest(params)]
    ensures search.Response? ==> r.issued == [SearchRequest(params), InformationBulk(IdsParam(search.body))]
    ensures search.Response? && bulk.Thrown? ==> r.error == Some(bulk.error)
  {
    var first := SearchRequest(params);
    match search
    case Thrown(e) => CardInfos(None, Some(e), [first])
    case Response(ids) =>
      var second := InformationBulk(IdsParam(ids));
      match bulk
      case Thrown(e) => CardInfos(None, Some(e), [first, second])
      case Response(infos) =>
        var cards := seq(|infos|, i requires 0 <= i < |infos| => ToCard(infos[i]));
        CardInfos(Some(cards), None, [first, second])
  }
}
