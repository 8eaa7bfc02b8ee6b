/**
 * What both `lookup_ip` variants share: the place fields copied out of a City
 * answer, the address family label, the error strings, and the names of the
 * foreign readers a lookup consults (kept as a ghost trace by the lookups).
 */
module Places {
  import opened Wrappers
  import opened Externals

  /** The keys of the result dictionary that come straight from the City record. */
  datatype PlaceFields = PlaceFields(
    continent: Option<string>,
    continentCode: Option<string>,
    country: Option<string>,
    countryCode: Option<string>,
    region: Option<string>,
    regionCode: Option<string>,
    city: Option<string>,
    latitude: Option<real>,
    longitude: Option<real>,
    isEu: Option<bool>,
    postal: Option<string>)

  /** A foreign call made while answering a lookup. */
  datatype Query = CityQuery | ZoneQuery(name: string) | AsnQuery | DnsQuery

  const InvalidIp := "invalid_ip"
  const NotFound := "not_found"
  const LookupErrorPrefix := "lookup_error:"

  /** `"ipv4"` for an `IPv4Address`, `"ipv6"` otherwise. */
  function AddressType(v: IpVersion): (t: string)
    ensures t == "ipv4" <==> v == IPv4
  {
    if v == IPv4 then "ipv4" else "ipv6"
  }

  /**
   * The English names and codes of continent, country, most specific
   * subdivision and city, the coordinates, the EU flag and the postal code;
   * every one of them is `None` when the part of the record it comes from is
   * absent.
   */
  function PlaceFieldsOf(rec: CityRecord): (p: PlaceFields)
    ensures rec.continent.None? ==> p.continent.None? && p.continentCode.None?
    ensures rec.country.None? ==> p.country.None? && p.countryCode.None? && p.isEu.None?
    ensures rec.region.None? ==> p.region.None? && p.regionCode.None?
    ensures rec.continent.Some? ==>
      p.continent == rec.continent.value.nameEn && p.continentCode == rec.continent.value.code
    ensures rec.country.Some? ==>
      && p.country == rec.country.value.nameEn
      && p.countryCode == rec.country.value.isoCode
      && p.isEu == Some(rec.country.value.isInEuropeanUnion)
    ensures rec.region.Some? ==> p.region == rec.region.value.nameEn && p.regionCode == rec.region.value.code
    ensures p.city == rec.cityName && p.postal == rec.postal
    ensures p.latitude == rec.location.latitude && p.longitude == rec.location.longitude
  {
    PlaceFields(
      continent := if rec.continent.Some? then rec.continent.value.nameEn else None,
      continentCode := if rec.continent.Some? then rec.continent.value.code else None,
      country := if rec.country.Some? then rec.country.value.nameEn else None,
      countryCode := if rec.country.Some? then rec.country.value.isoCode else None,
      region := if rec.region.Some? then rec.region.value.nameEn else None,
      regionCode := if rec.region.Some? then rec.region.value.code else None,
      city := rec.cityName,
      latitude := rec.location.latitude,
      longitude := rec.location.longitude,
      isEu := if rec.country.Some? then Some(rec.country.value.isInEuropeanUnion) else None,
      postal := rec.postal)
  }
}
