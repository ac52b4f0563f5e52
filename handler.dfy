/**
 * The `GET /api/historical_prices` view.  It reads `stock_id`, `date_from`
 * and `date_to` from the query string, answers 400 when one is missing or
 * empty, asks the provider's screen endpoint for the prices, and answers with
 * the projected records, or with a 500 naming the step that produced nothing.
 * An exception that escapes the view becomes Flask's own 500 reply.
 *
 * The outbound request is a parameter: `fetch` gives, for the three query
 * values, the provider's response or the exception the request raised.
 */
module Handler {
  import opened Wrappers
  import opened Json
  import opened Frames
  import opened Transform

  /** The three query values; None for a parameter that is absent. */
  datatype Query = Query(stockId: Option<string>, dateFrom: Option<string>, dateTo: Option<string>)

  /** A provider response: its status code, and its body decoded as JSON or
      the exception `response.json()` raises on it. */
  datatype Response = Response(status: int, body: Result<Value, Error>)

  type Fetch = (string, string, string) -> Result<Response, Error>

  /** What the view answers. */
  datatype Reply =
    | Records(frame: Frame)                   // `df.to_json(orient='records')`, status 200
    | Failure(status: int, message: string)   // `jsonify({"error": message})` with that status
    | Uncaught(error: Error)                  // an exception escaped the view

  const MissingParameters: string := "Missing required parameters"
  const FetchFailed: string := "Failed to fetch data"
  const ConvertFailed: string := "Failed to convert data to DataFrame"

  /** A query value is given when it is present and not empty (its truth value). */
  predicate Given(p: Option<string>)
    ensures Given(p) <==> p.Some? && Truthy(Str(p.value))
  {
    p.Some? && p.value != ""
  }

  /** The negation of `not stock_id or not date_from or not date_to`. */
  predicate AllGiven(q: Query)
    ensures !AllGiven(q) <==> !Given(q.stockId) || !Given(q.dateFrom) || !Given(q.dateTo)
    ensures AllGiven(q) ==> q.stockId.Some? && q.dateFrom.Some? && q.dateTo.Some?
  {
    Given(q.stockId) && Given(q.dateFrom) && Given(q.dateTo)
  }

  /**
   * `get_historical_prices` after the request: the decoded body of a 200
   * response, None for any other status, or the exception raised.
   */
  function FetchOutcome(resp: Result<Response, Error>): (o: Result<Option<Value>, Error>)
    ensures o.Ok? && o.value.Some? <==> resp.Ok? && resp.value.status == 200 && resp.value.body.Ok?
    ensures o.Ok? && o.value.Some? ==> o.value.value == resp.value.body.value
    ensures o == Ok(None) <==> resp.Ok? && resp.value.status != 200
    ensures o.Err? ==> (resp.Err? && o.error == resp.error) || (resp.Ok? && resp.value.body.Err? && o.error == resp.value.body.error)
  {
    var r :- resp;
    if r.status == 200 then
      var json :- r.body;
      Ok(Some(json))
    else
      Ok(None)
  }

  /** What the view fetched for a query with all three values. */
  function Fetched(q: Query, fetch: Fetch): Result<Option<Value>, Error>
    requires AllGiven(q)
  {
    FetchOutcome(fetch(q.stockId.value, q.dateFrom.value, q.dateTo.value))
  }

  /** The fetched body, when it is a truthy JSON value, the only kind the view transforms. */
  predicate FetchedTruthy(q: Query, fetch: Fetch)
    requires AllGiven(q)
  {
    Fetched(q, fetch).Ok? && Fetched(q, fetch).value.Some? && Truthy(Fetched(q, fetch).value.value)
  }

  /** The view's reply, for a given conversion of the records' timestamps. */
  function HistoricalPricesWith(q: Query, fetch: Fetch, convert: DateConversion): (r: Reply)
    ensures r == Failure(400, MissingParameters) <==> !AllGiven(q)
    ensures r == Failure(500, FetchFailed) <==>
      AllGiven(q) && Fetched(q, fetch).Ok? && !FetchedTruthy(q, fetch)
    ensures r == Failure(500, ConvertFailed) <==>
      AllGiven(q) && FetchedTruthy(q, fetch) && Contains(Fetched(q, fetch).value.value, "data") == Ok(false)
    ensures r.Records? <==>
      AllGiven(q) && FetchedTruthy(q, fetch) && PayloadAccepted(Fetched(q, fetch).value.value, convert)
    ensures r.Records? ==> r.frame.columns == Columns && r.frame.Rectangular()
    ensures r.Uncaught? ==>
      && AllGiven(q)
      && (Fetched(q, fetch).Err? || (FetchedTruthy(q, fetch) && TransformWith(Fetched(q, fetch).value.value, convert).Err?))
    ensures AllGiven(q) && Fetched(q, fetch).Err? ==> r == Uncaught(Fetched(q, fetch).error)
    ensures AllGiven(q) && FetchedTruthy(q, fetch) && TransformWith(Fetched(q, fetch).value.value, convert).Err? ==>
      r == Uncaught(TransformWith(Fetched(q, fetch).value.value, convert).error)
  {
    if !AllGiven(q) then Failure(400, MissingParameters)
    else
      match Fetched(q, fetch)
      case Err(e) => Uncaught(e)
      case Ok(None) => Failure(500, FetchFailed)
      case Ok(Some(json)) =>
        if !Truthy(json) then Failure(500, FetchFailed)
        else
          TransformSucceedsIff(json, convert);
          match TransformWith(json, convert)
          case Err(e) => Uncaught(e)
          case Ok(None) => Failure(500, ConvertFailed)
          case Ok(Some(f)) => Records(f)
  }

  /** `historical_prices`, with the dates converted as `json_to_dataframe` converts them. */
  function HistoricalPrices(q: Query, fetch: Fetch): (r: Reply)
    ensures r == Failure(400, MissingParameters) <==> !AllGiven(q)
    ensures r == Failure(500, FetchFailed) <==>
      AllGiven(q) && Fetched(q, fetch).Ok? && !FetchedTruthy(q, fetch)
    ensures r == Failure(500, ConvertFailed) <==>
      AllGiven(q) && FetchedTruthy(q, fetch) && Contains(Fetched(q, fetch).value.value, "data") == Ok(false)
    ensures r.Records? <==>
      AllGiven(q) && FetchedTruthy(q, fetch) && PayloadAccepted(Fetched(q, fetch).value.value, ConvertDate)
    ensures r.Records? ==> r.frame.columns == Columns && r.frame.Rectangular()
    ensures AllGiven(q) && Fetched(q, fetch).Err? ==> r == Uncaught(Fetched(q, fetch).error)
    ensures AllGiven(q) && FetchedTruthy(q, fetch) && Transformed(Fetched(q, fetch).value.value).Err? ==>
      r == Uncaught(Transformed(Fetched(q, fetch).value.value).error)
  {
    HistoricalPricesWith(q, fetch, ConvertDate)
  }

  /** The records of a successful reply are the provider's records, one row each, in order. */
  lemma RepliedRows(q: Query, fetch: Fetch, convert: DateConversion)
    requires HistoricalPricesWith(q, fetch, convert).Records?
    ensures var json := Fetched(q, fetch).value.value;
      var f := HistoricalPricesWith(q, fetch, convert).frame;
      var xs := ScreenData(json).value.items;
      && |f.rows| == |xs|
      && forall i :: 0 <= i < |xs| ==> RowOf(xs[i], f.rows[i], convert)
  {
    var json := Fetched(q, fetch).value.value;
    TransformRows(json, convert, HistoricalPricesWith(q, fetch, convert).frame);
  }

  /** The provider's answer to the sample query: status 200 and the sample payload. */
  function SampleFetch(stockId: string, dateFrom: string, dateTo: string): Result<Response, Error> {
    Ok(Response(200, Ok(SamplePayload())))
  }

  function SampleQuery(): Query {
    Query(Some("6408"), Some("01012023"), Some("31122023"))
  }

  /** The sample query answered with the sample payload gives its one row. */
  lemma SampleReply(convert: DateConversion, text: string)
    requires convert(Int(1700000000)) == Ok(text)
    ensures var r := HistoricalPricesWith(SampleQuery(), SampleFetch, convert);
      && r.Records? && |r.frame.rows| == 1
      && "date" in r.frame.rows[0] && r.frame.rows[0]["date"] == Val(Str(text))
  {
    var q := SampleQuery();
    assert AllGiven(q);
    assert Fetched(q, SampleFetch) == Ok(Some(SamplePayload()));
    SampleFrame(convert, text);
    assert Truthy(SamplePayload());
    assert HistoricalPricesWith(q, SampleFetch, convert) == Records(TransformWith(SamplePayload(), convert).value.value);
  }

  /** End to end: the sample record comes back as one row dated 2023-11-14. */
  lemma ReplyExample()
    ensures var r := HistoricalPrices(SampleQuery(), SampleFetch);
      && r.Records? && |r.frame.rows| == 1
      && "date" in r.frame.rows[0] && r.frame.rows[0]["date"] == Val(Str("2023-11-14"))
  {
    ConvertDateExample();
    SampleReply(ConvertDate, "2023-11-14");
  }

  /** A response that is not 200 is a failed fetch, whatever its body holds. */
  lemma NotFoundExample(q: Query, body: Result<Value, Error>, convert: DateConversion)
    requires AllGiven(q)
    ensures HistoricalPricesWith(q, (a, b, c) => Ok(Response(404, body)), convert) == Failure(500, FetchFailed)
  {
  }
}
