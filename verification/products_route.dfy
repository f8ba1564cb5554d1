/** The products route (`GET` in app/api/products/route.ts): it reads
    `category`, `limit` and `skip` from the request's query, picks the
    upstream catalogue URL, and passes the upstream answer on or replaces it
    with a 500 error. */
module ProductsRoute {

  import opened Wrappers
  import opened Text
  import opened Json
  import opened QueryString

  /** The upstream catalogue endpoint. */
  const Upstream: string := "https://dummyjson.com/products"

  /** The path segment that scopes the upstream query to one category. */
  const CategorySegment: string := "/category/"

  /** `value || fallback` on a query parameter: a missing parameter and an
      empty one both give the fallback; any other text passes through as is. */
  function OrDefault(value: Option<string>, fallback: string): (r: string)
    ensures value.Some? && value.value != [] ==> r == value.value
    ensures value.None? || value.value == [] ==> r == fallback
  {
    if value.Some? && value.value != [] then value.value else fallback
  }

  /** `category && category !== "all"`: a category narrows the upstream query
      only when it is present, not empty and not "all". */
  function ScopedCategory(params: seq<Param>): (r: Option<string>)
    ensures r.Some? <==> Get(params, "category").Some?
                         && Get(params, "category").value != []
                         && Get(params, "category").value != "all"
    ensures r.Some? ==> r == Get(params, "category")
  {
    var category := Get(params, "category");
    if category.Some? && category.value != [] && category.value != "all" then category else None
  }

  /** `searchParams.get("limit") || "12"`: never empty; the first `limit`
      when it is present and not empty, "12" otherwise. */
  function ForwardedLimit(params: seq<Param>): (r: string)
    ensures r != []
    ensures Get(params, "limit").Some? && Get(params, "limit").value != [] ==> r == Get(params, "limit").value
    ensures Get(params, "limit").None? || Get(params, "limit").value == [] ==> r == "12"
  {
    OrDefault(Get(params, "limit"), "12")
  }

  /** `searchParams.get("skip") || "0"`: never empty; the first `skip`
      when it is present and not empty, "0" otherwise. */
  function ForwardedSkip(params: seq<Param>): (r: string)
    ensures r != []
    ensures Get(params, "skip").Some? && Get(params, "skip").value != [] ==> r == Get(params, "skip").value
    ensures Get(params, "skip").None? || Get(params, "skip").value == [] ==> r == "0"
  {
    OrDefault(Get(params, "skip"), "0")
  }

  /** The query the route forwards: a `?` followed by the encoding of the
      forwarded `limit` and then the forwarded `skip`. */
  function UpstreamQuery(params: seq<Param>): (r: string)
    ensures r != [] && r[0] == '?'
    ensures r[1..] == Encode([("limit", ForwardedLimit(params)), ("skip", ForwardedSkip(params))])
  {
    ForwardedQueryEncodes(ForwardedLimit(params), ForwardedSkip(params));
    "?limit=" + ForwardedLimit(params) + "&skip=" + ForwardedSkip(params)
  }

  /** The upstream URL chosen for a request: the category-scoped path when
      there is a category to scope to, the plain catalogue otherwise, and the
      same forwarded query in both cases. */
  function UpstreamUrl(params: seq<Param>): (r: string)
    ensures Upstream <= r
    ensures ScopedCategory(params).None? ==> r == Upstream + UpstreamQuery(params)
    ensures ScopedCategory(params).Some? ==>
              r == Upstream + CategorySegment + ScopedCategory(params).value + UpstreamQuery(params)
    ensures r[|Upstream|] == '/' <==> ScopedCategory(params).Some?
  {
    var query := UpstreamQuery(params);
    match ScopedCategory(params)
    case None =>
      assert (Upstream + query)[|Upstream|] == query[0] == '?';
      Upstream + query
    case Some(category) =>
      assert (Upstream + CategorySegment + category + query)[|Upstream|] == CategorySegment[0];
      Upstream + CategorySegment + category + query
  }

  /** A query that starts with non-empty `limit` and `skip` is forwarded
      with exactly those two values. */
  lemma UpstreamQueryOfWindow(limit: string, skip: string, rest: seq<Param>)
    requires limit != [] && skip != []
    ensures ForwardedLimit([("limit", limit), ("skip", skip)] + rest) == limit
    ensures ForwardedSkip([("limit", limit), ("skip", skip)] + rest) == skip
  {
    var ps := [("limit", limit), ("skip", skip)] + rest;
    assert ps[0].0 == "limit" && ps[1].0 == "skip";
    assert Get(ps, "limit") == Some(limit);
    assert Get(ps, "skip") == Some(skip) by {
      assert "limit" != "skip" by { assert "limit"[0] != "skip"[0]; }
    }
  }

  /** The forwarded query, after its `?`, is the encoding of the two values. */
  lemma ForwardedQueryEncodes(limit: string, skip: string)
    ensures ("?limit=" + limit + "&skip=" + skip)[1..] == Encode([("limit", limit), ("skip", skip)])
  {
    var pcs := Pieces([("limit", limit), ("skip", skip)]);
    assert pcs[0] == "limit=" + limit && pcs[1] == "skip=" + skip;
    assert pcs == ["limit=" + limit, "skip=" + skip];
    JoinCons("limit=" + limit, ["skip=" + skip], '&');
    assert "&skip=" == "&" + "skip=";
  }

  /** The forwarded query reads back as exactly `limit` and `skip`, provided
      their values contain no `&`. */
  lemma UpstreamQueryReadsBack(limit: string, skip: string)
    requires '&' !in limit && '&' !in skip
    ensures Parse(("?limit=" + limit + "&skip=" + skip)[1..]) == [("limit", limit), ("skip", skip)]
  {
    ForwardedQueryEncodes(limit, skip);
    ParseEncode([("limit", limit), ("skip", skip)]);
  }

  /** The forwarded query reads back as the two forwarded values. */
  lemma ForwardedQueryReadsBack(params: seq<Param>)
    requires '&' !in ForwardedLimit(params) && '&' !in ForwardedSkip(params)
    ensures Parse(UpstreamQuery(params)[1..]) == [("limit", ForwardedLimit(params)), ("skip", ForwardedSkip(params))]
  {
    UpstreamQueryReadsBack(ForwardedLimit(params), ForwardedSkip(params));
  }

  /** What the upstream fetch gave back: a network error, or a status with a
      body that decoded as JSON or did not. */
  datatype UpstreamReply = NetworkError | Reply(status: int, body: Option<Value>)

  /** The route's answer: a status and a JSON body. */
  datatype RouteResponse = RouteResponse(status: int, body: Value)

  /** The body of every failed answer. */
  const FailureBody: Value := Object([("error", Str("Failed to fetch products"))])

  /** An OK upstream answer (2xx) with a JSON body is passed on as is with
      status 200; anything else becomes a 500 with the fixed error body. */
  function Respond(reply: UpstreamReply): (r: RouteResponse)
    ensures r.status == 200 || r.status == 500
    ensures r.status == 200 <==> reply.Reply? && 200 <= reply.status <= 299 && reply.body.Some?
    ensures r.status == 200 ==> r.body == reply.body.value
    ensures r.status == 500 ==> r.body == FailureBody
  {
    match reply
    case Reply(status, Some(data)) =>
      if 200 <= status <= 299 then RouteResponse(200, data) else RouteResponse(500, FailureBody)
    case _ => RouteResponse(500, FailureBody)
  }

  /** `GET`: choose the upstream URL, ask `upstream` (the network, a parameter
      here) and answer from its reply. */
  function HandleGet(params: seq<Param>, upstream: string -> UpstreamReply): (r: RouteResponse)
    ensures r.status == 200 <==> upstream(UpstreamUrl(params)).Reply?
                                 && 200 <= upstream(UpstreamUrl(params)).status <= 299
                                 && upstream(UpstreamUrl(params)).body.Some?
    ensures r.status == 200 ==> r.body == upstream(UpstreamUrl(params)).body.value
    ensures r.status != 200 ==> r == RouteResponse(500, FailureBody)
  {
    Respond(upstream(UpstreamUrl(params)))
  }
}
