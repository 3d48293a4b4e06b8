/**
 * The place label attached to a submission: the reverse-geocoding answer's
 * subdivision and country joined by ", ", or a fixed label when the lookup fails.
 * The lookup itself is a network call; its answer is an input here.
 */
module PlaceLabel {
  import opened Wrappers

  /** The two fields of a reverse-geocoding answer, each possibly missing. */
  datatype Geocode = Geocode(principalSubdivision: Option<string>, countryName: Option<string>)

  /** The label used when the lookup throws. */
  const UnknownLocation: string := "Location unknown"

  /** `field || ''`: a missing field reads as the empty string. */
  function OrEmpty(field: Option<string>): string {
    match field
    case Some(v) => v
    case None => ""
  }

  /** A field that yields a non-empty string (a truthy value in the source). */
  predicate Present(field: Option<string>) {
    field.Some? && field.value != ""
  }

  /** Joins state and country, with the separator only when both are present. */
  function JoinPlace(state: string, country: string): (r: string)
    ensures state != "" && country != "" ==> r == state + ", " + country
    ensures state == "" ==> r == country
    ensures country == "" ==> r == state
    ensures r == "" <==> state == "" && country == ""
  {
    state + (if state != "" && country != "" then ", " else "") + country
  }

  /**
   * The label `getLocationDetails` resolves to; `None` stands for a lookup that threw,
   * `Some(g)` for the answer's two fields.
   */
  function LocationLabel(lookup: Option<Geocode>): (r: string)
    ensures lookup.None? ==> r == UnknownLocation
    ensures lookup.Some? && Present(lookup.value.principalSubdivision) && Present(lookup.value.countryName) ==>
      r == lookup.value.principalSubdivision.value + ", " + lookup.value.countryName.value
    ensures lookup.Some? && Present(lookup.value.principalSubdivision) && !Present(lookup.value.countryName) ==>
      r == lookup.value.principalSubdivision.value
    ensures lookup.Some? && !Present(lookup.value.principalSubdivision) && Present(lookup.value.countryName) ==>
      r == lookup.value.countryName.value
    ensures lookup.Some? && !Present(lookup.value.principalSubdivision) && !Present(lookup.value.countryName) ==>
      r == ""
  {
    match lookup
    case None => UnknownLocation
    case Some(g) => JoinPlace(OrEmpty(g.principalSubdivision), OrEmpty(g.countryName))
  }
}
