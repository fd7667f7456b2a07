/** The decision `get_geo_data` takes over the provider's answer: the HTTP
    exchange itself is not modelled, only the status code and parsed body it
    yields. */
module GeoClient {
  import opened Wrappers
  import opened PyValues
  import opened Errors

  datatype ProviderResponse = ProviderResponse(status: int, body: Json)

  const HttpOk := 200

  /** `response_json.get("success", True)`: an absent flag counts as true. */
  function SuccessFlag(entries: map<string, Json>): Json {
    if "success" in entries then entries["success"] else JBool(true)
  }

  /** The provider's answer is usable: a JSON object, status 200, and a
      success flag that is truthy or absent. */
  predicate Accepted(response: ProviderResponse) {
    response.body.JObject? && response.status == HttpOk && Truthy(SuccessFlag(response.body.entries))
  }

  /** The body is checked first (`.get` on a non-object raises before the status
      is looked at); a falsy flag or a status other than 200 is a
      ServiceUnavailable; otherwise the payload is handed back as parsed. */
  function GetGeoData(response: ProviderResponse): (r: Result<map<string, Json>, Error>)
    ensures r.Success? <==> Accepted(response)
    ensures r.Success? ==> response.body == JObject(r.value)
    ensures r.Failure? && response.body.JObject? ==> r.error == ServiceUnavailable
    ensures !response.body.JObject? ==> r == Failure(ProviderBodyNotObject)
  {
    match response.body
    case JObject(entries) =>
      if !Truthy(SuccessFlag(entries)) || response.status != HttpOk then Failure(ServiceUnavailable)
      else Success(entries)
    case _ => Failure(ProviderBodyNotObject)
  }

  /** Without a success flag only the status decides. */
  lemma MissingFlagCountsAsTrue(status: int, entries: map<string, Json>)
    requires "success" !in entries
    ensures GetGeoData(ProviderResponse(status, JObject(entries))).Success? <==> status == HttpOk
  {
  }

  /** The two failures the test suite provokes: `{"success": false}` and a
      504 from the gateway both end in ServiceUnavailable. */
  lemma TestProviderFailures(entries: map<string, Json>)
    ensures GetGeoData(ProviderResponse(HttpOk, JObject(map["success" := JBool(false)]))) == Failure(ServiceUnavailable)
    ensures GetGeoData(ProviderResponse(504, JObject(entries))) == Failure(ServiceUnavailable)
  {
  }
}
