/** The search page: the results loaded so far, the total the API reported and
    a loading flag. `fetchRecipes` asks for the next page at the offset of the
    results already loaded and appends it; a route change starts over; the
    caption names the query or says all recipes are shown. */
module Search {
  import opened Wrappers
  import opened Strings
  import Requests

  /** The `/api/recipes` request: the route's query and sort (omitted when the
      route has none) and the offset to load from. */
  datatype RecipesRequest = RecipesRequest(query: Option<string>, sort: Option<string>, offset: nat)

  /** What awaiting `/api/recipes` produced: a thrown error, a body whose
      `error` is set, or a page of cards with the total number found. */
  datatype RecipesResponse =
    | Threw
    | ErrorPayload
    | Page(cardsInfo: seq<Requests.Card>, totalRecipesFoundCount: int)

  /** A fetch goes out when the router is ready and the results loaded so far
      are not known to be all of them. */
  predicate MayFetch(routerReady: bool, loaded: nat, total: Option<int>) {
    routerReady && !(total.Some? && loaded == total.value)
  }

  class SearchPage {
    var totalResultCount: Option<int>
    var results: seq<Requests.Card>
    var isLoading: bool

    constructor ()
      ensures totalResultCount == None && results == [] && !isLoading
    {
      totalResultCount := None;
      results := [];
      isLoading := false;
    }

    /** `fetchRecipes`, with the route's readiness, query and sort and the
        outcome of the request as inputs; returns the request it issued, if
        any. Only a page changes the results: it is appended and its total
        recorded, and loading stops. After an error payload or a thrown error
        the loading flag stays set. */
    method FetchRecipes(routerReady: bool, query: Option<string>, sort: Option<string>, response: RecipesResponse)
      returns (request: Option<RecipesRequest>)
      modifies this
      ensures request.Some? <==> MayFetch(routerReady, |old(results)|, old(totalResultCount))
      ensures request.Some? ==> request.value == RecipesRequest(query, sort, |old(results)|)
      ensures request.None? ==> isLoading == old(isLoading)
      ensures request.None? || !response.Page? ==>
                results == old(results) && totalResultCount == old(totalResultCount)
      ensures request.Some? && !response.Page? ==> isLoading
      ensures request.Some? && response.Page? ==>
                && results == old(results) + response.cardsInfo
                && totalResultCount == Some(response.totalRecipesFoundCount)
                && !isLoading
      ensures request.Some? && response.Page?
              && response.totalRecipesFoundCount == |old(results)| + |response.cardsInfo| ==>
                !MayFetch(routerReady, |results|, totalResultCount)
    {
      if !routerReady || (totalResultCount.Some? && |results| == totalResultCount.value) {
        return None;
      }
      isLoading := true;
      request := Some(RecipesRequest(query, sort, |results|));
      match response {
        case Threw =>
        case ErrorPayload =>
        case Page(cards, total) =>
          isLoading := false;
          results := results + cards;
          totalResultCount := Some(total);
      }
    }

    /** The effect run on every route change: back to no results, no total
        and not loading. */
    method ResetOnRouteChange()
      modifies this
      ensures totalResultCount == None && results == [] && !isLoading
      ensures forall ready :: MayFetch(ready, |results|, totalResultCount) <==> ready
    {
      isLoading := false;
      results := [];
      totalResultCount := None;
    }
  }

  /** `${totalResultCount}`: the number, or "null" while it is unknown. A
      known total reads back as itself, and no total prints as "null". */
  function CountText(total: Option<int>): (r: string)
    ensures |r| >= 1 && (r[0] == '-' || r[0] == 'n' || IsDigit(r[0]))
    ensures total.None? <==> r == "null"
    ensures total.Some? ==> ParseInt(r) == Some(total.value)
  {
    match total
    case None => "null"
    case Some(n) =>
      var text := IntToString(n);
      IntToStringChars(n);
      IntToStringRoundTrip(n);
      assert n >= 0 ==> text == NatToString(n) && IsDigit(text[0]);
      text
  }

  /** The text of `s` from `at` up to the next space; empty when no space
      follows. */
  function WordAt(s: string, at: nat): string
  {
    if at <= |s| && ' ' in s[at..] then s[at..at + IndexOf(s[at..], ' ')] else ""
  }

  /** In `prefix + word + rest`, where `word` has no space and `rest` starts
      with one, the word after `prefix` is `word`. */
  lemma WordAfterPrefix(prefix: string, word: string, rest: string)
    requires ' ' !in word && |rest| > 0 && rest[0] == ' '
    ensures WordAt(prefix + word + rest, |prefix|) == word
  {
    var r := prefix + word + rest;
    assert r[|prefix|..] == word + rest;
    IndexOfAfterPrefix(word, rest, ' ');
    assert r[|prefix|..|prefix| + |word|] == word;
  }

  /** The caption above the results: with a non-empty query it names the
      count and the query in quotes, otherwise it says all recipes are shown. */
  function ResultsText(query: Option<string>, total: Option<int>): (r: string)
    ensures StartsWith(r, "Showing ")
    ensures StartsWith(r, "Showing All ") <==> !(query.Some? && query.value != "")
  {
    var count := CountText(total);
    if query.Some? && query.value != "" then
      var rest := " results for \"" + query.value + "\"";
      var r := "Showing " + count + rest;
      assert r[..8] == "Showing " && r[8] == count[0] != 'A';
      r
    else
      var rest := " recipes";
      var r := "Showing All " + count + rest;
      assert r[..12] == "Showing All ";
      r
  }

  /** The count in either caption is the word after "Showing " or "Showing
      All ", and a known total reads back from it. */
  lemma CaptionCountReadsBack(query: Option<string>, total: Option<int>)
    ensures query.Some? && query.value != "" ==>
              && WordAt(ResultsText(query, total), 8) == CountText(total)
              && (total.Some? ==> ParseInt(WordAt(ResultsText(query, total), 8)) == total)
    ensures !(query.Some? && query.value != "") ==>
              && WordAt(ResultsText(query, total), 12) == CountText(total)
              && (total.Some? ==> ParseInt(WordAt(ResultsText(query, total), 12)) == total)
  {
    var count := CountText(total);
    assert ' ' !in count by {
      if total.Some? {
        IntToStringChars(total.value);
      }
    }
    if query.Some? && query.value != "" {
      WordAfterPrefix("Showing ", count, " results for \"" + query.value + "\"");
    } else {
      WordAfterPrefix("Showing All ", count, " recipes");
    }
  }

  /** A query caption is a fixed head for the count, then the query, then a
      closing quote. */
  lemma QueryCaptionParts(query: string, total: Option<int>)
    requires query != ""
    ensures var r := ResultsText(Some(query), total);
            var head := |"Showing " + CountText(total) + " results for \""|;
            && |r| == head + |query| + 1
            && r[head..|r| - 1] == query && r[|r| - 1] == '"'
  {
    var head := "Showing " + CountText(total) + " results for \"";
    var r := ResultsText(Some(query), total);
    assert r == head + query + "\"";
  }

  /** The two forms of the caption never coincide, and a query caption ends
      with the quoted query. */
  lemma CaptionForms(query: string, total: Option<int>, otherTotal: Option<int>)
    requires query != ""
    ensures ResultsText(Some(query), total) != ResultsText(None, otherTotal)
    ensures ResultsText(Some(""), total) == ResultsText(None, total)
    ensures var r := ResultsText(Some(query), total);
            |r| >= |query| + 1 && r[|r| - |query| - 1..] == query + "\""
  {
    var withQuery := ResultsText(Some(query), total);
    var all := ResultsText(None, otherTotal);
    assert StartsWith(all, "Showing All ") && !StartsWith(withQuery, "Showing All ");
    QueryCaptionParts(query, total);
    var head := |"Showing " + CountText(total) + " results for \""|;
    assert withQuery[head..] == withQuery[head..|withQuery| - 1] + [withQuery[|withQuery| - 1]];
  }

  /** Captions for the same count but different queries differ: the caption
      identifies the query. */
  lemma CaptionIdentifiesQuery(query: string, otherQuery: string, total: Option<int>)
    requires query != "" && otherQuery != "" && query != otherQuery
    ensures ResultsText(Some(query), total) != ResultsText(Some(otherQuery), total)
  {
    QueryCaptionParts(query, total);
    QueryCaptionParts(otherQuery, total);
  }
}
