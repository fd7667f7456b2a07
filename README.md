# Location create pipeline — a Dafny model

This project models the validate-and-enrich pipeline of the `locations` API:
the serializer that accepts a named location, checks its fields, looks the IP
address or domain up with a geolocation provider, merges the provider's
coordinates into the record and validates the result again before it is
stored.

Modules, one per concern of `locations/serializers.py`:

- `FieldProjection` — `LocationSerializer.__init__`: the class
  `LocationSerializer` holds the ordered keys of its field map, and its
  constructor pops, one at a time, every declared field that the optional
  `fields` list does not name. `Project` is the specification; the POST list
  `["id", "name", "ip", "domain"]` of the view leaves `id, ip, name, domain`.
- `DomainRegex` — the pattern `^[a-z0-9]+\.[a-z0-9]{1,4}$` as `re.match`
  applies it, at the level of characters (greedy runs of `[a-z0-9]`, Python's
  `$` that also matches before one final newline), proved equal to a
  declarative description of the accepted texts.
- `Validators` — `validate_ip`, `validate_domain`, `validate_latitude` and
  `validate_longitude`. Each returns its input unchanged or fails with a
  problem on its own field. Latitude and longitude are parsed as decimals and
  must lie strictly inside (-90, 90) and (-180, 180): the bounds are rejected,
  although the messages say "[-90, 90]" and "[-180, 180]".
- `GeoClient` — the decision of `get_geo_data` over the provider's status code
  and parsed body: refused when the `success` flag is falsy (an absent flag
  counts as true) or the status is not 200; otherwise the payload is returned
  as parsed.
- `LocationCreate` — `create`: the "IP or domain, not both" rule (checked
  before any request), the lookup of `ip or domain`, the merge (`domain` and
  `name` from the caller, `longitude` and `latitude` as the `str()` of the
  provider's values, everything else, `ip` included, from the provider), and
  the re-validation of the merged data by a serializer with all fields.
  `ValidLocation` is the invariant every stored record satisfies, stated
  without the validators.

The library calls the serializer makes are parameters, gathered in
`Validators.Library`: django's `validate_ipv46_address` (`isIpAddress`),
`Decimal()` (`parseDecimal`, a finite value or None; NaN and the infinities
are None because they end in the same ValidationError) and Python's `str()`
of a provider value (`pyStr`). The provider is the parameter `lookup` of
`Create`, and `Create` returns the text it looked up so that "no request was
made" can be stated.

Two behaviours of the code are easy to miss: the domain pattern also accepts
one final newline (Python's `$`), and a provider body that is not a JSON
object raises AttributeError (an uncaught error) at
locations/serializers.py:30, before the status code is read.

## Model

| member | source | states |
|---|---|---|
| `DomainRegex.LabelRun` | locations/serializers.py:59 | a greedy `[a-z0-9]` run stops exactly where the first other character is, and covers only label characters |
| `DomainRegex.PatternMatches` | locations/serializers.py:59 | `re.match` of the pattern: a matched text has at least three characters, starts with a label character, contains a dot and ends with a label character or the one newline `$` admits |
| `DomainRegex.MatchHasShape` | locations/serializers.py:59 | whatever the pattern matches is a domain, possibly followed by one newline |
| `DomainRegex.ShapeMatches` | locations/serializers.py:59 | every text of one or more label characters, a dot and one to four label characters is matched |
| `DomainRegex.NewlineShapeMatches` | locations/serializers.py:59 | such a domain followed by a single newline is matched too (Python's `$`) |
| `DomainRegex.PatternMatchesIff` | locations/serializers.py:59 | the character-level matcher accepts exactly the declarative domain texts |
| `Validators.ValidateIp` | locations/serializers.py:54-56 | the ip is returned unchanged exactly when the library validator accepts it, otherwise an ip problem |
| `Validators.ValidateDomain` | locations/serializers.py:58-61 | a falsy domain passes unchanged; a non-empty one passes unchanged iff it matches the pattern, otherwise a domain problem with the source's message |
| `Validators.ValidateLatitude` | locations/serializers.py:63-71 | accepted, and returned unchanged, iff it parses to a decimal strictly between -90 and 90; an unparseable value fails with the same message |
| `Validators.ValidateLongitude` | locations/serializers.py:73-81 | accepted, and returned unchanged, iff it parses to a decimal strictly between -180 and 180; an unparseable value fails with the same message |
| `Validators.TestDomainAccepted` | locations/tests.py:58-61 | the test's domain `zerkalo.io` passes `validate_domain` unchanged |
| `Validators.BadFirstCharRejected` | locations/serializers.py:59 | a non-empty text whose first character is outside `[a-z0-9]` (an upper-case letter, say) fails |
| `Validators.LongSuffixRejected` | locations/serializers.py:59 | every label, a dot and a suffix of more than four label characters fails |
| `Validators.SubdomainRejected` | locations/serializers.py:59 | every text with a second dot after the first label (a subdomain) fails |
| `GeoClient.GetGeoData` | locations/serializers.py:28-40 | the payload is returned as parsed iff the body is an object, the status is 200 and the success flag is truthy or absent; otherwise ServiceUnavailable, or the AttributeError of a non-object body |
| `GeoClient.MissingFlagCountsAsTrue` | locations/serializers.py:29-32 | without a `success` key only the status code decides |
| `GeoClient.TestProviderFailures` | locations/tests.py:149-175 | `{"success": false}` with status 200, and any object body with status 504, give ServiceUnavailable |
| `FieldProjection.Pop` | locations/serializers.py:52 | `self.fields.pop(name)`: the named key goes, every other key stays, and the map shrinks when the key was present |
| `FieldProjection.ProjectMembers` | locations/serializers.py:48-52 | the projection keeps exactly the declared fields that are also allowed |
| `FieldProjection.ProjectAll` | locations/serializers.py:48-52 | allowing every declared field drops nothing |
| `FieldProjection.PopProject` | locations/serializers.py:51-52 | popping one field from a projection is the projection without that field |
| `FieldProjection.PostProjection` | locations/views.py:13-17 | with the POST list, latitude and longitude are dropped and `id, ip, name, domain` remain in declaration order |
| `FieldProjection.LocationSerializer.constructor` | locations/serializers.py:44-52 | with no `fields` the field map is `Meta.fields`; with a list, the loop leaves exactly the declared fields the list names, in order |
| `LocationCreate.ExactlyOneOf` | locations/serializers.py:87-88 | holds, so that `create` does not raise "Please provide either IP or domain", exactly when one of ip and domain is truthy and the other is not |
| `LocationCreate.IpOrDomain` | locations/serializers.py:94 | `ip or domain`: a truthy ip, otherwise the domain; when exactly one is truthy, that one, and never empty |
| `LocationCreate.CheckIpEntry` | locations/serializers.py:101-102 | an absent provider ip is skipped and stored as null; a string is checked by `validate_ip`; any other value is refused on field ip |
| `LocationCreate.Revalidate` | locations/serializers.py:101-102 | the merged data passes iff both coordinates are in range, the ip entry is acceptable and the domain is falsy or matches; a passing record satisfies the stored-record invariant; a failure names each failing field and no other |
| `LocationCreate.RevalidateValid` | locations/serializers.py:101-104 | a record that satisfies the invariant passes re-validation unchanged |
| `LocationCreate.Create` | locations/serializers.py:83-104 | no request unless exactly one of ip and domain is truthy (otherwise the either-or ValidationError); the request is for `ip or domain`; a refused answer, a missing coordinate or a failed re-validation produces no record; a produced record takes name and domain from the caller, the coordinates as `str()` of the provider's and ip from the provider, and satisfies the invariant |

## Left out

- The HTTP request and `response.json()` (locations/serializers.py:22-28): network I/O. The model takes the status code and the parsed body; a body that is not JSON at all raises inside `response.json()` and is not modelled.
- The provider's URL and access key (locations/serializers.py:90-94) and the logging of a refused answer (locations/serializers.py:33-37).
- `validate_ipv46_address`, `Decimal()` and `str()`: library code, kept as the parameters of `Validators.Library`.
- The rest of the framework's field handling: type coercion, whitespace trimming, blank and `max_length` checks, required fields, the read-only `id`, and the dispatch that calls `validate_<field>` for each field the serializer has. `Create` receives `validated_data` as the POST serializer produced it.
- `LocationCreate.CheckIpEntry`: every refused non-string ip entry is reported with the ip validator's message, where the framework reports "Not a valid string." for booleans, lists and objects.
- Persistence behind `super().create`: the id assigned by the store, the uniqueness of `name` and the column lengths (locations/models.py:4-9).
- locations/views.py beyond its POST field list: routing, authentication and list ordering are framework behaviour.
- The exception class behind ServiceUnavailable and its HTTP detail: locations/exceptions.py is not part of this model.
