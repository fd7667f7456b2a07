/** `LocationSerializer.create`: the "IP or domain, not both" rule, the provider
    lookup, the merge of the provider's payload with the caller's fields, and
    the re-validation of the merged data by a full serializer before it is
    stored. */
module LocationCreate {
  import opened Wrappers
  import opened PyValues
  import opened DomainRegex
  import opened Errors
  import opened Validators
  import opened GeoClient

  /** The data handed to the store (the store assigns the id). */
  datatype LocationData = LocationData(
    longitude: string,
    latitude: string,
    ip: Option<string>,
    name: string,
    domain: Option<string>)

  /** `validated_data` of the POST serializer, as `.get` returns its entries:
      `name` is required; `ip` is None only when absent (a null ip is refused
      by `validate_ip` before `create` runs); `domain` is None when absent or
      null. */
  datatype CreateInput = CreateInput(name: string, ip: Option<string>, domain: Option<string>)

  const EitherMessage := "Please provide either IP or domain"

  /** A record every field check accepts, stated without the validators:
      coordinates strictly inside their ranges, an ip the library accepts
      (or none), a domain of the pattern (or a falsy one). */
  ghost predicate ValidLocation(loc: LocationData, lib: Library) {
    && InOpenRange(lib.parseDecimal(loc.longitude), LongitudeBound)
    && InOpenRange(lib.parseDecimal(loc.latitude), LatitudeBound)
    && (loc.ip.Some? ==> lib.isIpAddress(loc.ip.value))
    && (TruthyText(loc.domain) ==> DomainText(loc.domain.value))
  }

  /** The either-or test of `create`, as `not any((ip, domain)) or
      all((ip, domain))` fails: it holds exactly when one of the two is
      truthy and the other is not. */
  predicate ExactlyOneOf(input: CreateInput): (b: bool)
    ensures b <==> TruthyText(input.ip) != TruthyText(input.domain)
  {
    var ip := TruthyText(input.ip);
    var domain := TruthyText(input.domain);
    !(!(ip || domain) || (ip && domain))
  }

  /** The text `ip or domain` puts into the URL: a truthy ip, otherwise the
      domain as the f-string renders it ("None" when it is null). */
  function IpOrDomain(input: CreateInput): (t: string)
    ensures TruthyText(input.ip) ==> Some(t) == input.ip
    ensures !TruthyText(input.ip) && input.domain.Some? ==> Some(t) == input.domain
    ensures ExactlyOneOf(input) ==> t != [] && (Some(t) == input.ip || Some(t) == input.domain)
  {
    if TruthyText(input.ip) then input.ip.value
    else if input.domain.Some? then input.domain.value
    else "None"
  }

  /** The `ip` entry of the merged data, checked by the full serializer: an
      absent entry is skipped (the field is not required) and leaves ip null;
      a string goes through `validate_ip`; any other value is refused. */
  function CheckIpEntry(entry: Option<Json>, lib: Library): (r: Result<Option<string>, Problem>)
    ensures r.Success? <==> entry.None? || (entry.value.JStr? && lib.isIpAddress(entry.value.s))
    ensures r.Success? ==> r.value == (if entry.None? then None else Some(entry.value.s))
    ensures r.Failure? ==> r.error == FieldProblem("ip", IpMessage)
  {
    match entry
    case None => Success(None)
    case Some(JStr(s)) =>
      (match ValidateIp(s, lib)
       case Success(v) => Success(Some(v))
       case Failure(p) => Failure(p))
    case Some(_) => Failure(FieldProblem("ip", IpMessage))
  }

  function ProblemsOf<T>(r: Result<T, Problem>): seq<Problem> {
    if r.Failure? then [r.error] else []
  }

  /** The problems a check contributes name its field, and only when it fails. */
  predicate Reports(problems: seq<Problem>, field: string, message: string, fails: bool) {
    FieldProblem(field, message) in problems <==> fails
  }

  /** `LocationSerializer(data=geo_data).is_valid()` over the merged values:
      every field is checked, in declaration order, and all problems are
      reported together. */
  function Revalidate(longitude: string, latitude: string, ipEntry: Option<Json>,
                      name: string, domain: Option<string>, lib: Library)
    : (r: Result<LocationData, seq<Problem>>)
    ensures r.Success? <==>
              && InOpenRange(lib.parseDecimal(longitude), LongitudeBound)
              && InOpenRange(lib.parseDecimal(latitude), LatitudeBound)
              && CheckIpEntry(ipEntry, lib).Success?
              && (TruthyText(domain) ==> DomainText(domain.value))
    ensures r.Success? ==>
              && r.value == LocationData(longitude, latitude, CheckIpEntry(ipEntry, lib).value, name, domain)
              && ValidLocation(r.value, lib)
    ensures r.Failure? ==> r.error != []
    ensures r.Failure? ==> forall p :: p in r.error ==>
              p in {FieldProblem("longitude", LongitudeMessage), FieldProblem("latitude", LatitudeMessage),
                    FieldProblem("ip", IpMessage), FieldProblem("domain", DomainMessage)}
    ensures r.Failure? ==>
              && Reports(r.error, "longitude", LongitudeMessage, !InOpenRange(lib.parseDecimal(longitude), LongitudeBound))
              && Reports(r.error, "latitude", LatitudeMessage, !InOpenRange(lib.parseDecimal(latitude), LatitudeBound))
              && Reports(r.error, "ip", IpMessage, CheckIpEntry(ipEntry, lib).Failure?)
              && Reports(r.error, "domain", DomainMessage, TruthyText(domain) && !DomainText(domain.value))
  {
    var lon := ValidateLongitude(longitude, lib);
    var lat := ValidateLatitude(latitude, lib);
    var ip := CheckIpEntry(ipEntry, lib);
    var dom := ValidateDomain(domain);
    var problems := ProblemsOf(lon) + ProblemsOf(lat) + ProblemsOf(ip) + ProblemsOf(dom);
    if problems == [] then Success(LocationData(lon.value, lat.value, ip.value, name, dom.value))
    else Failure(problems)
  }

  /** A stored record that satisfies the invariant passes re-validation
      unchanged. */
  lemma RevalidateValid(loc: LocationData, lib: Library)
    requires ValidLocation(loc, lib)
    ensures Revalidate(loc.longitude, loc.latitude, if loc.ip.Some? then Some(JStr(loc.ip.value)) else None,
                       loc.name, loc.domain, lib) == Success(loc)
  {
  }

  /** `create(validated_data)`. `lookup` stands for the provider: it maps the
      text appended to the provider's URL to the response. `request` is that
      text, or None when no request is made. */
  method Create(input: CreateInput, lookup: string -> ProviderResponse, lib: Library)
    returns (request: Option<string>, r: Result<LocationData, Error>)
    // the either-or rule is checked before any request
    ensures request.Some? <==> ExactlyOneOf(input)
    ensures request.None? ==> r == Failure(ValidationError([GeneralProblem(EitherMessage)]))
    ensures request.Some? ==> request.value == IpOrDomain(input) && TruthyText(request)
    // a refused provider answer stops the request, with its own error
    ensures request.Some? && !Accepted(lookup(request.value)) ==> r == Failure(GetGeoData(lookup(request.value)).error)
    // a payload without a coordinate raises
    ensures request.Some? && Accepted(lookup(request.value)) ==>
              var payload := lookup(request.value).body.entries;
              && ("longitude" !in payload ==> r == Failure(ProviderKeyMissing("longitude")))
              && ("longitude" in payload && "latitude" !in payload ==> r == Failure(ProviderKeyMissing("latitude")))
    // the merged data is re-validated; only then is a record produced
    ensures request.Some? && Accepted(lookup(request.value)) ==>
              var payload := lookup(request.value).body.entries;
              "longitude" in payload && "latitude" in payload ==>
                var checked := Revalidate(lib.pyStr(payload["longitude"]), lib.pyStr(payload["latitude"]),
                                          if "ip" in payload then Some(payload["ip"]) else None,
                                          input.name, input.domain, lib);
                && (checked.Success? ==> r == Success(checked.value))
                && (checked.Failure? ==> r == Failure(ValidationError(checked.error)))
    // what a created record holds
    ensures r.Success? ==> request.Some? && Accepted(lookup(request.value))
    ensures r.Success? ==>
              var payload := lookup(request.value).body.entries;
              && "longitude" in payload && "latitude" in payload
              && r.value.name == input.name
              && r.value.domain == input.domain
              && r.value.longitude == lib.pyStr(payload["longitude"])
              && r.value.latitude == lib.pyStr(payload["latitude"])
              && r.value.ip == (if "ip" in payload then Some(payload["ip"].s) else None)
              && ValidLocation(r.value, lib)
  {
    var domain := input.domain;
    var ip := input.ip;
    if !ExactlyOneOf(input) {
      return None, Failure(ValidationError([GeneralProblem(EitherMessage)]));
    }
    var target := if TruthyText(ip) then ip.value else domain.value;
    request := Some(target);
    var answer := GetGeoData(lookup(target));
    if answer.Failure? {
      return request, Failure(answer.error);
    }
    var geoData := answer.value;
    geoData := geoData["domain" := TextToJson(domain)];
    if "longitude" !in geoData {
      return request, Failure(ProviderKeyMissing("longitude"));
    }
    geoData := geoData["longitude" := JStr(lib.pyStr(geoData["longitude"]))];
    if "latitude" !in geoData {
      return request, Failure(ProviderKeyMissing("latitude"));
    }
    geoData := geoData["latitude" := JStr(lib.pyStr(geoData["latitude"]))];
    geoData := geoData["name" := JStr(input.name)];

    var mergedDomain := if geoData["domain"].JStr? then Some(geoData["domain"].s) else None;
    var checked := Revalidate(geoData["longitude"].s, geoData["latitude"].s,
                              if "ip" in geoData then Some(geoData["ip"]) else None,
                              geoData["name"].s, mergedDomain, lib);
    if checked.Failure? {
      return request, Failure(ValidationError(checked.error));
    }
    r := Success(checked.value);
  }
}
