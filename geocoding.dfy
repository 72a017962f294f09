/** Reverse geocoding: the place name taken from the address the reverse-geocoding
    service returns for the user's coordinates. */
module Geocoding {
  import opened JsValues

  /** `response.data.address`: each of the three place fields may be absent. */
  datatype Address = Address(city: Option<string>, town: Option<string>, village: Option<string>)

  /** How the reverse-geocoding request ended: it threw (network or HTTP error), or it
      answered with a body that may lack the `address` object. */
  datatype ReverseResponse = RequestFailed | Responded(address: Option<Address>)

  /** The place fields in order of preference. */
  function PlaceFields(a: Address): (fields: seq<Option<string>>)
    ensures |fields| == 3
  {
    [a.city, a.town, a.village]
  }

  /** The first field that is present and not empty, if any. */
  function FirstNonEmpty(fields: seq<Option<string>>): (name: Option<string>)
    ensures name.Some? ==> name.value != "" && Some(name.value) in fields
    ensures name.None? ==> forall f :: f in fields ==> f.None? || f.value == ""
    ensures name.Some? ==>
      exists k :: 0 <= k < |fields| && fields[k] == name && (forall j :: 0 <= j < k ==> fields[j].None? || fields[j].value == "")
  {
    if fields == [] then None
    else if fields[0].Some? && fields[0].value != "" then fields[0]
    else
      var name := FirstNonEmpty(fields[1..]);
      if name.Some? then
        var k :| 0 <= k < |fields[1..]| && fields[1..][k] == name &&
          forall j :: 0 <= j < k ==> fields[1..][j].None? || fields[1..][j].value == "";
        assert fields[k + 1] == name;
        assert forall j :: 0 <= j < k + 1 ==> fields[j].None? || fields[j].value == "" by {
          forall j | 0 <= j < k + 1 ensures fields[j].None? || fields[j].value == "" {
            if j > 0 { assert fields[j] == fields[1..][j - 1]; }
          }
        }
        name
      else name
  }

  /** `fetchCityFromCoordinates`: `city || town || village` of the address, and `null`
      when reading it throws (a failed request, or no `address` in the body). */
  function FetchCityFromCoordinates(response: ReverseResponse): (name: JsValue)
    ensures (response.RequestFailed? || response.address.None?) ==> name == Null
    ensures Truthy(name) <==>
      response.Responded? && response.address.Some? && FirstNonEmpty(PlaceFields(response.address.value)).Some?
    ensures Truthy(name) ==> name == Str(FirstNonEmpty(PlaceFields(response.address.value)).value)
    ensures response.Responded? && response.address.Some? && !Truthy(name) ==>
      name == Property(response.address.value.village)
  {
    match response
    case RequestFailed => Null
    case Responded(None) => Null
    case Responded(Some(a)) => Or(Or(Property(a.city), Property(a.town)), Property(a.village))
  }
}
