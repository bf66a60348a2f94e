/**
 * The monthly MGNREGA handler for Chhattisgarh: validation of the query
 * string, the two upstream queries it builds, and the response it assembles
 * from the upstream replies.
 *
 * The two `fetch` calls are not modelled as I/O: their replies are inputs
 * (`primary` for the district query, `wide` for the fallback), and the result
 * records which queries the handler sends, in order, together with its
 * response. The API key, read from the environment by the source, is an input
 * too.
 */
module Handler {
  import opened Wrappers
  import opened Text
  import opened Decimal
  import opened District
  import opened Period

  /** The query string; `None` is a parameter that is absent. */
  datatype Request = Request(district: Option<string>, month: Option<string>, year: Option<string>)

  /** An upstream record: its `district_name` (`None` when absent) and the fields passed through untouched. */
  datatype Record = Record(districtName: Option<string>, fields: map<string, string>)

  /**
   * One upstream reply: whether the status is 2xx, the status, the
   * `content-type` header (`None` when absent), the body text, and the
   * `records` member of the parsed body (`None` when it is not an array).
   */
  datatype Upstream = Upstream(ok: bool, status: int, contentType: Option<string>, body: string,
                               records: Option<seq<Record>>)

  /** The JSON bodies the handler sends. */
  datatype Body =
    | BadRequest(error: string)                           // { error }
    | MissingApiKey(hint: string)                         // { error: 'missing_api_key', hint }
    | UpstreamFailed(upstreamStatus: int, text: string)   // { error: 'upstream_failed', status, body }
    | UpstreamNonJson(contentType: string, text: string)  // { error: 'upstream_nonjson', contentType, body }
    | Records(records: seq<Record>)                       // { records }

  datatype Response = Response(status: int, body: Body)

  /** The request once validated: the district as given, the month code, the parsed year, the API key. */
  datatype Params = Params(district: string, month: string, year: int, apiKey: string)

  /** The parameters of an outbound query, by name. */
  type Query = map<string, string>

  /** What one invocation does: the queries it sends, in order, and the response. */
  datatype Exchange = Exchange(sent: seq<Query>, response: Response)

  const StateName := "CHHATTISGARH"
  const MissingKeyHint := "Set DATA_GOV_API_KEY in Vercel Project > Settings > Environment Variables"
  /** Responses longer than this are cut when echoed in `upstream_nonjson`. */
  const EchoLimit := 500

  // ----- validation -----

  /**
   * The checks of the handler, in their order: the first failing one decides
   * the response, and only a request passing all three and a present key give
   * parameters.
   */
  function Validate(req: Request, apiKey: Option<string>): (r: Result<Params, Response>)
    ensures req.district.GetOr("") == "" ==>
      r == Err(Response(400, BadRequest("district is required")))
    ensures req.district.GetOr("") != "" && !IsDigits(req.month.GetOr(""), 2) ==>
      r == Err(Response(400, BadRequest("month must be MM")))
    ensures req.district.GetOr("") != "" && IsDigits(req.month.GetOr(""), 2)
            && !IsDigits(req.year.GetOr(""), 4) ==>
      r == Err(Response(400, BadRequest("year must be YYYY")))
    ensures req.district.GetOr("") != "" && IsDigits(req.month.GetOr(""), 2)
            && IsDigits(req.year.GetOr(""), 4) && apiKey.GetOr("") == "" ==>
      r == Err(Response(500, MissingApiKey(MissingKeyHint)))
    ensures r.Ok? <==>
      req.district.GetOr("") != "" && IsDigits(req.month.GetOr(""), 2)
      && IsDigits(req.year.GetOr(""), 4) && apiKey.GetOr("") != ""
    ensures r.Ok? ==>
      r.value == Params(req.district.GetOr(""), req.month.GetOr(""), Value(req.year.GetOr("")), apiKey.GetOr(""))
  {
    var district := req.district.GetOr("");
    var month := req.month.GetOr("");
    var year := req.year.GetOr("");
    var key := apiKey.GetOr("");
    if district == "" then Err(Response(400, BadRequest("district is required")))
    else if !IsDigits(month, 2) then Err(Response(400, BadRequest("month must be MM")))
    else if !IsDigits(year, 4) then Err(Response(400, BadRequest("year must be YYYY")))
    else if key == "" then Err(Response(500, MissingApiKey(MissingKeyHint)))
    else Ok(Params(district, month, Value(year), key))
  }

  // ----- the outbound queries -----

  /**
   * `filters[month]`: the month's name, or the text `undefined` that
   * `URLSearchParams.set` writes when the table has no entry for the code.
   */
  function MonthFilter(code: string): (r: string)
    ensures IsMonthCode(code) ==> r == CalendarMonths[Value(code) - 1]
    ensures !IsMonthCode(code) ==> r == "undefined"
  {
    MonthName(code).GetOr("undefined")
  }

  /**
   * The parameters both queries carry; `district` is the `filters[district_name]`
   * value, when the query has one.
   */
  function QueryOf(apiKey: string, limit: string, district: Option<string>, month: string, finYear: string): Query {
    var common := map[
      "api-key" := apiKey,
      "format" := "json",
      "limit" := limit,
      "filters[state_name]" := StateName,
      "filters[month]" := month,
      "filters[fin_year]" := finYear
    ];
    if district.Some? then common["filters[district_name]" := district.value] else common
  }

  /** The district query. */
  function PrimaryQuery(p: Params): Query {
    QueryOf(p.apiKey, "100", Some(Normalize(Some(p.district))), MonthFilter(p.month), FinYear(p.month, p.year))
  }

  /** The wide fallback query. */
  function WideQuery(p: Params): Query {
    QueryOf(p.apiKey, "5000", None, MonthFilter(p.month), FinYear(p.month, p.year))
  }

  /**
   * What a query holds, entry by entry; dropping the district filter and
   * changing the limit turns one query into the other.
   */
  lemma QueryOfShape(apiKey: string, limit: string, district: Option<string>, month: string, finYear: string)
    ensures QueryOf(apiKey, limit, district, month, finYear)["api-key"] == apiKey
    ensures QueryOf(apiKey, limit, district, month, finYear)["format"] == "json"
    ensures QueryOf(apiKey, limit, district, month, finYear)["limit"] == limit
    ensures QueryOf(apiKey, limit, district, month, finYear)["filters[state_name]"] == StateName
    ensures QueryOf(apiKey, limit, district, month, finYear)["filters[month]"] == month
    ensures QueryOf(apiKey, limit, district, month, finYear)["filters[fin_year]"] == finYear
    ensures "filters[district_name]" in QueryOf(apiKey, limit, district, month, finYear) <==> district.Some?
    ensures district.Some? ==> QueryOf(apiKey, limit, district, month, finYear)["filters[district_name]"] == district.value
    ensures forall wider ::
      QueryOf(apiKey, wider, None, month, finYear)
      == (QueryOf(apiKey, limit, district, month, finYear) - {"filters[district_name]"})["limit" := wider]
  {
  }

  /**
   * The two queries differ in exactly two ways: the fallback drops the
   * district filter and raises the limit from 100 to 5000.
   */
  lemma QueriesDiffer(p: Params)
    ensures PrimaryQuery(p)["limit"] == "100" && WideQuery(p)["limit"] == "5000"
    ensures PrimaryQuery(p)["filters[district_name]"] == Normalize(Some(p.district))
    ensures "filters[district_name]" !in WideQuery(p)
    ensures WideQuery(p) == (PrimaryQuery(p) - {"filters[district_name]"})["limit" := "5000"]
  {
    var m, f := MonthFilter(p.month), FinYear(p.month, p.year);
    QueryOfShape(p.apiKey, "100", Some(Normalize(Some(p.district))), m, f);
    QueryOfShape(p.apiKey, "5000", None, m, f);
  }

  // ----- the replies -----

  function ContentType(up: Upstream): string {
    up.contentType.GetOr("")
  }

  /** `ok` and a content type mentioning `json`: the reply is read as JSON. */
  predicate IsJsonReply(up: Upstream) {
    up.ok && Contains(ContentType(up), "json")
  }

  /** The reply's `records` when they form an array; no records otherwise. */
  function RecordsOf(up: Upstream): seq<Record> {
    up.records.GetOr([])
  }

  /** The request's district matches a record when both normalize to the same name. */
  predicate Keeps(want: string, r: Record) {
    Normalize(r.districtName) == want
  }

  /** `a` is `b` with some elements left out, the rest in their order. */
  ghost predicate SubsequenceOf<T>(a: seq<T>, b: seq<T>)
    decreases |b|
  {
    if |a| == 0 then true
    else if |b| == 0 then false
    else if a[0] == b[0] then SubsequenceOf(a[1..], b[1..])
    else SubsequenceOf(a, b[1..])
  }

  /** `Array.prototype.filter`: the elements of `s` that `keep` accepts. */
  function Filter<T>(keep: T -> bool, s: seq<T>): (r: seq<T>)
    ensures |r| <= |s|
    ensures forall i :: 0 <= i < |r| ==> keep(r[i])
    decreases |s|
  {
    if |s| == 0 then []
    else if keep(s[0]) then [s[0]] + Filter(keep, s[1..])
    else Filter(keep, s[1..])
  }

  /** Each accepted element is kept as often as it occurs; every other one is dropped. */
  lemma {:induction false} FilterCounts<T>(keep: T -> bool, s: seq<T>)
    ensures forall x :: multiset(Filter(keep, s))[x] == if keep(x) then multiset(s)[x] else 0
    decreases |s|
  {
    if |s| > 0 {
      FilterCounts(keep, s[1..]);
      assert s == [s[0]] + s[1..];
      assert multiset(s) == multiset([s[0]]) + multiset(s[1..]);
      if keep(s[0]) {
        assert multiset(Filter(keep, s)) == multiset([s[0]]) + multiset(Filter(keep, s[1..]));
      }
    }
  }

  /** The kept elements stay in their order. */
  lemma {:induction false} FilterIsSubsequence<T>(keep: T -> bool, s: seq<T>)
    ensures SubsequenceOf(Filter(keep, s), s)
    decreases |s|
  {
    if |s| > 0 {
      FilterIsSubsequence(keep, s[1..]);
      if keep(s[0]) {
        var r := Filter(keep, s);
        assert r[0] == s[0] && r[1..] == Filter(keep, s[1..]);
      }
    }
  }

  /** Filtering a concatenation filters each part. */
  lemma {:induction false} FilterAppend<T>(keep: T -> bool, a: seq<T>, b: seq<T>)
    ensures Filter(keep, a + b) == Filter(keep, a) + Filter(keep, b)
    decreases |a|
  {
    if |a| == 0 {
      assert a + b == b;
    } else {
      assert (a + b)[0] == a[0];
      assert (a + b)[1..] == a[1..] + b;
      FilterAppend(keep, a[1..], b);
    }
  }

  /** A sequence whose every element is accepted passes through unchanged. */
  lemma {:induction false} FilterKeepsAccepted<T>(keep: T -> bool, s: seq<T>)
    requires forall i :: 0 <= i < |s| ==> keep(s[i])
    ensures Filter(keep, s) == s
    decreases |s|
  {
    if |s| > 0 {
      FilterKeepsAccepted(keep, s[1..]);
    }
  }

  /** Filtering twice is filtering once. */
  lemma FilterIdempotent<T>(keep: T -> bool, s: seq<T>)
    ensures Filter(keep, Filter(keep, s)) == Filter(keep, s)
  {
    FilterKeepsAccepted(keep, Filter(keep, s));
  }

  /** The record test of the fallback filter, for the requested district `want`. */
  function MatchesDistrict(want: string): Record -> bool {
    r => Keeps(want, r)
  }

  /**
   * The fallback's `filter`: the records of `list` whose normalized district
   * name is `want`, each as many times as it occurs, in their order.
   */
  function KeepDistrict(want: string, list: seq<Record>): (r: seq<Record>)
    ensures SubsequenceOf(r, list)
    ensures forall i :: 0 <= i < |r| ==> Keeps(want, r[i])
    ensures forall x :: multiset(r)[x] == if Keeps(want, x) then multiset(list)[x] else 0
  {
    FilterCounts(MatchesDistrict(want), list);
    FilterIsSubsequence(MatchesDistrict(want), list);
    Filter(MatchesDistrict(want), list)
  }

  /** The fallback's records: the matching part of a JSON reply; nothing when the reply failed. */
  function FallbackRecords(want: string, wide: Upstream): (r: seq<Record>)
    ensures forall i :: 0 <= i < |r| ==> Keeps(want, r[i])
    ensures !IsJsonReply(wide) ==> r == []
    ensures IsJsonReply(wide) ==> SubsequenceOf(r, RecordsOf(wide))
    ensures IsJsonReply(wide) ==>
      forall x :: multiset(r)[x] == if Keeps(want, x) then multiset(RecordsOf(wide))[x] else 0
  {
    if IsJsonReply(wide) then KeepDistrict(want, RecordsOf(wide)) else []
  }

  // ----- the handler -----

  /**
   * The handler once the request is valid: it sends the district query `q`,
   * and, when that comes back as JSON with no records, the wide query `wq`,
   * whose records it filters down to the district `want`.
   */
  function Serve(q: Query, wq: Query, want: string, primary: Upstream, wide: Upstream): (x: Exchange)
    ensures 1 <= |x.sent| <= 2 && x.sent[0] == q
    ensures x.response.status in {200, 502}
    ensures x.response.status == 200 <==> x.response.body.Records?
    ensures !primary.ok ==>
      x.sent == [q] && x.response == Response(502, UpstreamFailed(primary.status, primary.body))
    ensures primary.ok && !IsJsonReply(primary) ==>
      x.sent == [q]
      && x.response.status == 502 && x.response.body.UpstreamNonJson?
      && x.response.body.contentType == ContentType(primary)
      && |x.response.body.text| == (if |primary.body| <= EchoLimit then |primary.body| else EchoLimit)
      && x.response.body.text == primary.body[..|x.response.body.text|]
    ensures IsJsonReply(primary) && |RecordsOf(primary)| > 0 ==>
      x.sent == [q] && x.response == Response(200, Records(RecordsOf(primary)))
    ensures IsJsonReply(primary) && |RecordsOf(primary)| == 0 ==>
      x.sent == [q, wq] && x.response.status == 200
    ensures IsJsonReply(primary) && |RecordsOf(primary)| == 0 && IsJsonReply(wide) ==>
      x.response.body.records == KeepDistrict(want, RecordsOf(wide))
    ensures IsJsonReply(primary) && |RecordsOf(primary)| == 0 && !IsJsonReply(wide) ==>
      x.response.body.records == []
  {
    if !primary.ok then
      Exchange([q], Response(502, UpstreamFailed(primary.status, primary.body)))
    else if !Contains(ContentType(primary), "json") then
      Exchange([q], Response(502, UpstreamNonJson(ContentType(primary), Prefix(primary.body, EchoLimit))))
    else
      var records := RecordsOf(primary);
      if |records| > 0 then Exchange([q], Response(200, Records(records)))
      else Exchange([q, wq], Response(200, Records(FallbackRecords(want, wide))))
  }

  /**
   * One invocation of the handler on query string `req`, environment key
   * `apiKey`, and the replies `primary` and `wide` its two fetches would get.
   */
  function Handle(req: Request, apiKey: Option<string>, primary: Upstream, wide: Upstream): (x: Exchange)
    ensures |x.sent| <= 2
    ensures x.response.status in {200, 400, 500, 502}
    ensures x.response.status == 200 <==> x.response.body.Records?
    ensures x.sent == [] <==> Validate(req, apiKey).Err?
    ensures Validate(req, apiKey).Err? ==> x.response == Validate(req, apiKey).error
    ensures Validate(req, apiKey).Ok? ==>
      var p := Validate(req, apiKey).value;
      x == Serve(PrimaryQuery(p), WideQuery(p), Normalize(Some(p.district)), primary, wide)
  {
    match Validate(req, apiKey)
    case Err(resp) => Exchange([], resp)
    case Ok(p) => Serve(PrimaryQuery(p), WideQuery(p), Normalize(Some(p.district)), primary, wide)
  }

  /**
   * The wide reply is read only when the district query came back as JSON
   * with no records; otherwise the handler's result does not depend on it.
   */
  lemma WideReplyUnusedOtherwise(req: Request, apiKey: Option<string>, primary: Upstream, wide1: Upstream, wide2: Upstream)
    requires Validate(req, apiKey).Err? || !IsJsonReply(primary) || |RecordsOf(primary)| > 0
    ensures Handle(req, apiKey, primary, wide1) == Handle(req, apiKey, primary, wide2)
  {
  }

  /**
   * The handler sees the `district` parameter only through whether it is
   * empty and what it normalizes to.
   */
  lemma HandleSeesNormalizedDistrict(req1: Request, req2: Request, apiKey: Option<string>, primary: Upstream, wide: Upstream)
    requires req1.month == req2.month && req1.year == req2.year
    requires (req1.district.GetOr("") == "") == (req2.district.GetOr("") == "")
    requires Normalize(Some(req1.district.GetOr(""))) == Normalize(Some(req2.district.GetOr("")))
    ensures Handle(req1, apiKey, primary, wide) == Handle(req2, apiKey, primary, wide)
  {
    ValidateSeesDistrictEmptiness(req1, req2, apiKey);
  }

  /** Validation looks at the district only to see whether it is empty. */
  lemma ValidateSeesDistrictEmptiness(req1: Request, req2: Request, apiKey: Option<string>)
    requires req1.month == req2.month && req1.year == req2.year
    requires (req1.district.GetOr("") == "") == (req2.district.GetOr("") == "")
    ensures Validate(req1, apiKey).Err? <==> Validate(req2, apiKey).Err?
    ensures Validate(req1, apiKey).Err? ==> Validate(req1, apiKey) == Validate(req2, apiKey)
    ensures Validate(req1, apiKey).Ok? ==>
      Validate(req1, apiKey).value.(district := req2.district.GetOr("")) == Validate(req2, apiKey).value
  {
  }

  /**
   * The letter case of the `district` parameter does not change what the
   * handler sends or answers.
   */
  lemma HandleIgnoresDistrictCase(req: Request, apiKey: Option<string>, primary: Upstream, wide: Upstream, s: string)
    requires req.district == Some(s)
    ensures Handle(req.(district := Some(Lower(s))), apiKey, primary, wide) == Handle(req, apiKey, primary, wide)
    ensures Handle(req.(district := Some(Upper(s))), apiKey, primary, wide) == Handle(req, apiKey, primary, wide)
  {
    NormalizeIgnoresAsciiCase(s);
    HandleSeesNormalizedDistrict(req.(district := Some(Lower(s))), req, apiKey, primary, wide);
    HandleSeesNormalizedDistrict(req.(district := Some(Upper(s))), req, apiKey, primary, wide);
  }

  /** `toUpperCase` of `Kabirdham` contains KABIRDHAM. */
  lemma KabirdhamUpper(s: string)
    requires s == "Kabirdham"
    ensures Contains(Upper(s), "KABIRDHAM")
  {
    assert Upper(s) == "KABIRDHAM";
    ContainsAt(Upper(s), "KABIRDHAM", 0);
  }

  /** Month code 02 is sent as `Feb`. */
  lemma FebruaryFilter(code: string)
    requires code == "02"
    ensures MonthFilter(code) == "Feb"
  {
    assert IsDigits(code, 2) && Value(code) == 2;
  }

  /**
   * `?district=Kabirdham&month=02&year=2024` asks upstream for KAWARDHA,
   * Feb and 2023-2024.
   */
  lemma KabirdhamFebruary2024(p: Params)
    requires p.district == "Kabirdham" && p.month == "02" && p.year == 2024
    ensures PrimaryQuery(p)["filters[district_name]"] == "KAWARDHA"
    ensures PrimaryQuery(p)["filters[month]"] == "Feb"
    ensures PrimaryQuery(p)["filters[fin_year]"] == "2023-2024"
    ensures PrimaryQuery(p)["filters[state_name]"] == "CHHATTISGARH"
  {
    KabirdhamUpper(p.district);
    KabirdhamInAnyCase(p.district);
    FinYearExamples();
    FebruaryFilter(p.month);
    QueryOfShape(p.apiKey, "100", Some("KAWARDHA"), "Feb", "2023-2024");
  }

  /**
   * A two-digit month the table does not know is not rejected: the queries
   * carry the month `undefined` and the fin year that starts in the given year.
   */
  lemma UnknownMonthIsSent(p: Params)
    requires IsDigits(p.month, 2) && !IsMonthCode(p.month)
    ensures PrimaryQuery(p)["filters[month]"] == "undefined"
    ensures PrimaryQuery(p)["filters[fin_year]"] == FinYearLabel(p.year)
  {
    QueryOfShape(p.apiKey, "100", Some(Normalize(Some(p.district))), MonthFilter(p.month), FinYear(p.month, p.year));
  }
}
