/**
 * The Advanced Search request (src/graphql/network/search.ts): the records it
 * exchanges and the query-string parameters it builds. Sending the request
 * (JSONP) is not part of this model.
 */
module SearchApi {
  import opened Wrappers
  import opened Decimal

  /** Structured search arguments; `collection == None` is an absent field. */
  datatype SearchArgs = SearchArgs(collection: Option<string>)

  datatype SearchResponseDoc = SearchResponseDoc(identifier: string, collection: seq<string>)

  /** The `response` object of one page: its rows, the total match count and the first row's index. */
  datatype SearchResponse = SearchResponse(docs: seq<SearchResponseDoc>, numFound: int, start: int)

  /** One call of `search(ctx, query, rows, page, args)`. */
  datatype SearchCall = SearchCall(query: Option<string>, rows: int, page: int, args: SearchArgs)

  /** One `url.searchParams.append(key, value)`. */
  datatype Param = Param(key: string, value: string)

  /** JavaScript truthiness of an optional string: present and non-empty. */
  predicate IsTruthy(s: Option<string>)
  {
    s.Some? && s.value != ""
  }

  function Parenthesize(segment: string): string
  {
    "(" + segment + ")"
  }

  /** `parts.join(" AND ")`. */
  function JoinAnd(parts: seq<string>): string
  {
    if |parts| == 0 then ""
    else if |parts| == 1 then parts[0]
    else parts[0] + " AND " + JoinAnd(parts[1..])
  }

  /**
   * The `q` parameter, case by case: the query term first, then the collection
   * restriction, each parenthesised, joined by `AND`; empty when neither is set.
   */
  function QueryText(query: Option<string>, args: SearchArgs): string
  {
    if IsTruthy(query) && IsTruthy(args.collection) then
      Parenthesize(query.value) + " AND " + Parenthesize("collection:" + args.collection.value)
    else if IsTruthy(query) then Parenthesize(query.value)
    else if IsTruthy(args.collection) then Parenthesize("collection:" + args.collection.value)
    else ""
  }

  /** The parameters `search` appends to the URL, in order (the JSONP callback is added later). */
  method SearchParams(call: SearchCall) returns (params: seq<Param>)
    ensures params == [
      Param("q", QueryText(call.query, call.args)),
      Param("fl[]", "identifier"),
      Param("fl[]", "collection"),
      Param("rows", IntToString(call.rows)),
      Param("page", IntToString(call.page)),
      Param("output", "json")]
  {
    var querySegments: seq<string> := [];
    if IsTruthy(call.query) {
      querySegments := querySegments + [call.query.value];
    }
    if IsTruthy(call.args.collection) {
      querySegments := querySegments + ["collection:" + call.args.collection.value];
    }
    var wrapped := seq(|querySegments|, i requires 0 <= i < |querySegments| => Parenthesize(querySegments[i]));
    if |wrapped| == 2 {
      assert wrapped[1..] == [wrapped[1]];
      assert JoinAnd(wrapped) == wrapped[0] + " AND " + wrapped[1];
    }
    assert JoinAnd(wrapped) == QueryText(call.query, call.args);
    params := [Param("q", JoinAnd(wrapped))];
    params := params + [Param("fl[]", "identifier")];
    params := params + [Param("fl[]", "collection")];
    params := params + [Param("rows", IntToString(call.rows))];
    params := params + [Param("page", IntToString(call.page))];
    params := params + [Param("output", "json")];
  }

  /** `q` is empty exactly when neither a query nor a collection is given; null and "" are alike. */
  lemma QueryTextEmpty(query: Option<string>, args: SearchArgs)
    ensures QueryText(query, args) == "" <==> !IsTruthy(query) && !IsTruthy(args.collection)
    ensures QueryText(None, args) == QueryText(Some(""), args)
  {
    if IsTruthy(query) || IsTruthy(args.collection) {
      assert QueryText(query, args)[0] == '(';
    }
  }

  /** With both parts, the query segment comes first and the collection segment last. */
  lemma QueryTextOrder(query: string, collection: string)
    requires query != "" && collection != ""
    ensures var q := QueryText(Some(query), SearchArgs(Some(collection)));
      var left := Parenthesize(query);
      var right := Parenthesize("collection:" + collection);
      q[..|left|] == left && q[|q| - |right|..] == right && |q| == |left| + 5 + |right|
  {
  }

  /** `rows` and `page` are decimal renderings: they parse back to the numbers sent. */
  lemma RowsAndPageAreDecimal(call: SearchCall)
    ensures ParseInt(IntToString(call.rows)) == Some(call.rows)
    ensures ParseInt(IntToString(call.page)) == Some(call.page)
  {
    ParseIntRoundTrip(call.rows);
    ParseIntRoundTrip(call.page);
  }
}
