/** The HTML proxy route `GET /api/validate` (server/validate.ts): it checks the
    `url` query parameter, asks the Nu validator once, and answers with the
    validator's JSON or with one fixed error body. Express, `node-fetch` and
    `encodeURIComponent` are parameters. */
module ServerValidate {
  import opened Types

  /** A JSON value, as a body is sent or received. */
  datatype Json =
    | JNull
    | JBool(b: bool)
    | JNumber(n: int)
    | JString(s: string)
    | JArray(items: seq<Json>)
    | JObject(fields: seq<(string, Json)>)

  /** What the route sends: a status and a JSON body. */
  datatype HttpResponse = HttpResponse(status: int, body: Json)

  /** The request the route sends upstream. */
  datatype OutboundRequest = OutboundRequest(url: string, headers: seq<(string, string)>)

  /** The upstream body once `response.json()` has run on it. */
  datatype UpstreamBody = Parsed(json: Json) | Unparsable

  /** What `await fetch(...)` yields: a response with a status and a body, or a
      fault that makes the promise reject. */
  datatype Upstream = Responded(status: int, body: UpstreamBody) | NetworkFault

  const RoutePath := "/api/validate"
  const NuCheckPrefix := "https://validator.w3.org/nu/?doc="
  const NuCheckSuffix := "&out=json"
  const OutboundHeaders: seq<(string, string)> :=
    [("User-Agent", "LocalValidator/1.0"), ("Content-Type", "text/html; charset=utf-8")]

  /** Express's default status for `res.json(...)`. */
  const DefaultStatus := 200

  const MissingUrlBody := JObject([("error", JString("Missing URL parameter"))])
  const FailureBody := JObject([("error", JString("Failed to validate URL"))])

  /** `response.ok`: a status in the 2xx range. */
  predicate IsOk(status: int): (ok: bool)
    ensures ok <==> status / 100 == 2
  {
    200 <= status <= 299
  }

  /** The Nu validator URL for a page: the encoded page URL as the `doc`
      parameter, JSON output requested. */
  function CheckUrl(encode: string -> string, url: string): (checkUrl: string)
    ensures |checkUrl| == |NuCheckPrefix| + |encode(url)| + |NuCheckSuffix|
    ensures checkUrl[..|NuCheckPrefix|] == NuCheckPrefix
    ensures checkUrl[|NuCheckPrefix|..|checkUrl| - |NuCheckSuffix|] == encode(url)
    ensures checkUrl[|checkUrl| - |NuCheckSuffix|..] == NuCheckSuffix
  {
    NuCheckPrefix + encode(url) + NuCheckSuffix
  }

  /** Removes the Nu validator prefix and the `&out=json` suffix, when both are there. */
  function StripCheckAffixes(checkUrl: string): (middle: Option<string>)
    ensures middle.Some? ==> checkUrl == NuCheckPrefix + middle.value + NuCheckSuffix
  {
    var n, p, q := |checkUrl|, |NuCheckPrefix|, |NuCheckSuffix|;
    if p + q <= n && checkUrl[..p] == NuCheckPrefix && checkUrl[n - q..] == NuCheckSuffix then
      var middle := checkUrl[p..n - q];
      assert checkUrl == checkUrl[..p] + middle + checkUrl[n - q..];
      Some(middle)
    else None
  }

  /** Removing the prefix and suffix from an outbound URL gives back the encoded page URL. */
  lemma StripCheckAffixesRoundTrip(encode: string -> string, url: string)
    ensures StripCheckAffixes(CheckUrl(encode, url)) == Some(encode(url))
  {
  }

  /** The route handler. `url` is the query parameter (`None` when absent);
      `upstream` answers the one request the handler may send, which is also
      returned as `sent`. */
  method HandleValidateRequest(url: Option<string>, encode: string -> string, upstream: OutboundRequest -> Upstream)
    returns (res: HttpResponse, sent: Option<OutboundRequest>)
    ensures res.status in {DefaultStatus, 400, 500}
    ensures res.status == 400 <==> url.None? || url.value == ""
    ensures res.status == 400 ==> res.body == MissingUrlBody && sent.None?
    ensures res.status != 400 ==> sent == Some(OutboundRequest(CheckUrl(encode, url.value), OutboundHeaders))
    ensures res.status == DefaultStatus <==>
      sent.Some? && upstream(sent.value).Responded? &&
      IsOk(upstream(sent.value).status) && upstream(sent.value).body.Parsed?
    ensures res.status == DefaultStatus ==> res.body == upstream(sent.value).body.json
    ensures res.status == 500 ==> res.body == FailureBody
  {
    if url.None? || url.value == "" {
      return HttpResponse(400, MissingUrlBody), None;
    }
    var request := OutboundRequest(CheckUrl(encode, url.value), OutboundHeaders);
    sent := Some(request);
    var response := upstream(request);
    if response.NetworkFault? {
      res := HttpResponse(500, FailureBody);
    } else if !IsOk(response.status) {
      res := HttpResponse(500, FailureBody);
    } else if response.body.Unparsable? {
      res := HttpResponse(500, FailureBody);
    } else {
      res := HttpResponse(DefaultStatus, response.body.json);
    }
  }
}
