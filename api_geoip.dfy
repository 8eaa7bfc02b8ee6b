/**
 * `api/geoip_resolver.py`: the lookup of the API service. It classifies
 * errors like the NetRecon lookup, but reports the raw time-zone identifier,
 * copies the stored flag (emoji, SVG and PNG) only when there is one, and its
 * connection has no domain: no reverse DNS is done.
 */
module ApiGeoip {
  import opened Wrappers
  import opened Text
  import opened Externals
  import opened Places

  datatype ApiConnection = ApiConnection(asn: Option<int>, org: Option<string>, isp: Option<string>, route: string)

  datatype ApiFlag = ApiFlag(emoji: Option<string>, svg: Option<string>, png: Option<string>)

  /** The result dictionary of a successful lookup; `addressType` is its `type` key. */
  datatype ApiIpRecord = ApiIpRecord(
    ip: string,
    success: bool,
    addressType: string,
    place: PlaceFields,
    callingCode: Option<string>,
    capital: Option<string>,
    borders: Option<seq<string>>,
    flag: Option<ApiFlag>,
    connection: Option<ApiConnection>,
    timezone: Option<string>)

  /**
   * `_lookup_connection(ip)`: nothing when the ASN reader misses or fails;
   * otherwise its number, its organisation as `org` and as `isp`, and its network.
   */
  function LookupConnection(ip: string, o: Oracles): (c: Option<ApiConnection>)
    ensures c.None? <==> !o.asn(ip).AsnFound?
    ensures c.Some? ==>
      var a := o.asn(ip).record;
      && c.value.asn == a.number
      && c.value.org == a.organization
      && c.value.isp == c.value.org
      && c.value.route == a.network
  {
    match o.asn(ip)
    case AsnFound(a) => Some(ApiConnection(a.number, a.organization, a.organization, a.network))
    case _ => None
  }

  /** The foreign calls a lookup of an address the parser accepted makes, in order. */
  function LookupQueries(ip: string, o: Oracles): seq<Query> {
    if o.city(ip).CityFound? then [CityQuery, AsnQuery] else [CityQuery]
  }

  /**
   * `lookup_ip(ip)`: `invalid_ip` before any reader call for an address the
   * parser rejects, `not_found` for a City miss, `lookup_error:` and the message
   * for any other City failure. A found record copies the place fields and the
   * zone identifier; the metadata fields are filled only when the country
   * code is non-empty and has an entry, and `flag` only when that entry has a
   * non-empty flag object.
   */
  method LookupIp(ip: string, o: Oracles, meta: CountryMetaTable)
    returns (result: Option<ApiIpRecord>, err: Option<string>, ghost queried: seq<Query>)
    ensures o.parseIp(ip).None? ==> result.None? && err == Some(InvalidIp) && queried == []
    ensures o.parseIp(ip).Some? ==> queried == LookupQueries(ip, o)
    ensures o.parseIp(ip).Some? && o.city(ip).CityNotFound? ==> result.None? && err == Some(NotFound)
    ensures o.parseIp(ip).Some? && o.city(ip).CityFailed? ==>
      result.None? && err == Some(LookupErrorPrefix + o.city(ip).message)
    ensures result.Some? <==> o.parseIp(ip).Some? && o.city(ip).CityFound?
    ensures result.Some? ==>
      var rec, r := o.city(ip).record, result.value;
      && err.None?
      && r.ip == ip && r.success
      && r.addressType == AddressType(o.parseIp(ip).value.version)
      && r.place == PlaceFieldsOf(rec)
      && r.timezone == rec.location.timeZone
      && r.connection == LookupConnection(ip, o)
    ensures result.Some? ==>
      var r := result.value;
      var cc := r.place.countryCode;
      && (!(Truthy(cc) && cc.value in meta) ==>
            r.callingCode.None? && r.capital.None? && r.borders.None? && r.flag.None?)
      && (Truthy(cc) && cc.value in meta ==>
            var m := meta[cc.value];
            && r.callingCode == m.callingCode
            && r.capital == m.capital
            && r.borders == m.borders
            && (r.flag.Some? <==> m.flag.Some?)
            && (r.flag.Some? ==>
                  r.flag.value == ApiFlag(m.flag.value.emoji, m.flag.value.svg, m.flag.value.png)))
  {
    var parsed := o.parseIp(ip);
    if parsed.None? {
      return None, Some(InvalidIp), [];
    }
    queried := [CityQuery];
    var rec: CityRecord;
    match o.city(ip) {
      case CityNotFound =>
        return None, Some(NotFound), queried;
      case CityFailed(msg) =>
        return None, Some(LookupErrorPrefix + msg), queried;
      case CityFound(found) =>
        rec := found;
    }

    var place := PlaceFieldsOf(rec);
    var r := ApiIpRecord(ip, true, AddressType(parsed.value.version), place,
      None, None, None, None, None, rec.location.timeZone);

    var cc := place.countryCode;
    if Truthy(cc) && cc.value in meta {
      var m := meta[cc.value];
      r := r.(callingCode := m.callingCode, capital := m.capital, borders := m.borders);
      if m.flag.Some? {
        var f := m.flag.value;
        r := r.(flag := Some(ApiFlag(f.emoji, f.svg, f.png)));
      }
    }

    queried := queried + [AsnQuery];
    var connection := LookupConnection(ip, o);
    if connection.Some? {
      r := r.(connection := connection);
    }
    result, err := Some(r), None;
  }
}
