/** The field validators of LocationSerializer: `validate_ip`, `validate_domain`,
    `validate_latitude` and `validate_longitude`. Each returns its input unchanged
    or fails with a problem on its own field. */
module Validators {
  import opened Wrappers
  import opened PyValues
  import opened DomainRegex
  import opened Errors

  /** The library calls whose code is not part of this model, as parameters.
      - isIpAddress: django's `validate_ipv46_address` accepts the text.
      - parseDecimal: `Decimal(text)` as a finite value; None when it raises
        InvalidOperation or yields NaN or an infinity (an ordering comparison
        with NaN raises InvalidOperation and an infinity is out of any range,
        so all three end in the same ValidationError).
      - pyStr: Python's `str()` of a provider value. */
  datatype Library = Library(
    isIpAddress: string -> bool,
    parseDecimal: string -> Option<real>,
    pyStr: Json -> string)

  const DomainMessage := "Please provide valide domain"
  const LatitudeMessage := "Latitude must in range of [-90, 90]"
  const LongitudeMessage := "Longitude must in range of [-180, 180]"
  /** The message django's validator raises with. */
  const IpMessage := "Enter a valid IPv4 or IPv6 address."

  const LatitudeBound := 90.0
  const LongitudeBound := 180.0

  /** A parsed decimal strictly inside (-bound, bound). */
  predicate InOpenRange(d: Option<real>, bound: real) {
    d.Some? && -bound < d.value && d.value < bound
  }

  function ValidateIp(value: string, lib: Library): (r: Result<string, Problem>)
    ensures r.Success? <==> lib.isIpAddress(value)
    ensures r.Success? ==> r.value == value
    ensures r.Failure? ==> r.error == FieldProblem("ip", IpMessage)
  {
    if lib.isIpAddress(value) then Success(value) else Failure(FieldProblem("ip", IpMessage))
  }

  /** A falsy domain passes unchanged; any other must match the pattern. */
  function ValidateDomain(value: Option<string>): (r: Result<Option<string>, Problem>)
    ensures !TruthyText(value) ==> r == Success(value)
    ensures TruthyText(value) ==> (r.Success? <==> DomainText(value.value))
    ensures r.Success? ==> r.value == value
    ensures r.Failure? ==> r.error == FieldProblem("domain", DomainMessage)
  {
    if TruthyText(value) then
      PatternMatchesIff(value.value);
      if PatternMatches(value.value) then Success(value)
      else Failure(FieldProblem("domain", DomainMessage))
    else Success(value)
  }

  /** The check shared by latitude and longitude: parse, then compare with
      both bounds excluded. */
  function CheckCoordinate(value: string, bound: real, field: string, message: string,
                           lib: Library): (r: Result<string, Problem>)
  {
    var d := lib.parseDecimal(value);
    if d.None? then Failure(FieldProblem(field, message))
    else if !(d.value > -bound && d.value < bound) then Failure(FieldProblem(field, message))
    else Success(value)
  }

  function ValidateLatitude(value: string, lib: Library): (r: Result<string, Problem>)
    ensures r.Success? <==> InOpenRange(lib.parseDecimal(value), LatitudeBound)
    ensures r.Success? ==> r.value == value
    ensures r.Failure? ==> r.error == FieldProblem("latitude", LatitudeMessage)
  {
    CheckCoordinate(value, LatitudeBound, "latitude", LatitudeMessage, lib)
  }

  function ValidateLongitude(value: string, lib: Library): (r: Result<string, Problem>)
    ensures r.Success? <==> InOpenRange(lib.parseDecimal(value), LongitudeBound)
    ensures r.Success? ==> r.value == value
    ensures r.Failure? ==> r.error == FieldProblem("longitude", LongitudeMessage)
  {
    CheckCoordinate(value, LongitudeBound, "longitude", LongitudeMessage, lib)
  }

  /** "zerkalo.io", the domain the test suite creates with, is accepted. */
  lemma TestDomainAccepted()
    ensures ValidateDomain(Some("zerkalo.io")) == Success(Some("zerkalo.io"))
  {
    var z := "zerkalo.io";
    assert z[7] == '.' && AllLabelChars(z[..7]) && AllLabelChars(z[8..]);
    assert DomainShape(z);
  }

  /** A text that starts outside `[a-z0-9]` (an upper-case letter, a dot,
      a space) is rejected. */
  lemma BadFirstCharRejected(s: string)
    requires s != [] && !IsLabelChar(s[0])
    ensures ValidateDomain(Some(s)).Failure?
  {
    LabelRunExact(s, 0);
    PatternMatchesIff(s);
  }

  /** A suffix of more than four characters after the dot is rejected. */
  lemma LongSuffixRejected(host: string, suffix: string)
    requires host != [] && AllLabelChars(host)
    requires |suffix| > 4 && AllLabelChars(suffix)
    ensures ValidateDomain(Some(host + "." + suffix)).Failure?
  {
    var s := host + "." + suffix;
    assert s[..|host|] == host;
    LabelRunExact(s, |host|);
    var t := s[|host| + 1..];
    assert t == suffix && t[..|t|] == t;
    LabelRunExact(t, |t|);
    PatternMatchesIff(s);
  }

  /** A second dot (a subdomain) is rejected. */
  lemma SubdomainRejected(first: string, middle: string, rest: string)
    requires first != [] && AllLabelChars(first)
    requires middle != [] && AllLabelChars(middle)
    requires rest != [] && rest[0] == '.'
    ensures ValidateDomain(Some(first + "." + middle + rest)).Failure?
  {
    var s := first + "." + middle + rest;
    assert s[..|first|] == first;
    LabelRunExact(s, |first|);
    var t := s[|first| + 1..];
    assert t == middle + rest;
    assert t[..|middle|] == middle && t[|middle|] == '.';
    LabelRunExact(t, |middle|);
    assert !PatternMatches(s);
    PatternMatchesIff(s);
  }
}
