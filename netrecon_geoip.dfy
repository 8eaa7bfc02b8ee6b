/**
 * `services/NetRecon/geoip_resolver.py`: the lookup of the NetRecon service.
 * An address is validated, located with the City reader, enriched with the
 * country metadata, its time zone and its ASN connection (whose reverse-DNS
 * domain is looked up only after the ASN lookup succeeded), and answered as
 * `(result, None)` or `(None, error)`.
 */
module NetReconGeoip {
  import opened Wrappers
  import opened Text
  import opened Externals
  import opened Places
  import opened Flags
  import opened Timezone

  /** The `connection` object; `domain` is `None` where the key is absent. */
  datatype Connection = Connection(
    asn: Option<int>,
    org: Option<string>,
    isp: Option<string>,
    route: string,
    domain: Option<string>)

  /** The `flag` object. */
  datatype FlagInfo = FlagInfo(svg: Option<string>, emoji: Option<string>, emojiUnicode: Option<string>)

  /** The result dictionary of a successful lookup; `addressType` is its `type` key. */
  datatype IpRecord = IpRecord(
    ip: string,
    success: bool,
    addressType: string,
    place: PlaceFields,
    callingCode: Option<string>,
    capital: Option<string>,
    borders: Option<seq<string>>,
    flag: Option<FlagInfo>,
    connection: Option<Connection>,
    timezone: Option<TimezoneInfo>)

  /**
   * `_lookup_domain`: a failed reverse lookup and an empty host name give
   * nothing; a name with a dot gives its last two labels, as they are (no case
   * change); a name without a dot is returned whole. Whatever is returned is
   * non-empty, so `if domain:` in the caller is the same as "a domain was found".
   */
  function LookupDomain(answer: DnsAnswer): (r: Option<string>)
    ensures r.None? <==> answer.DnsFailed? || answer.name == ""
    ensures r.Some? ==> r.value != ""
    ensures r.Some? && '.' in answer.name ==> IsLastTwoLabels(answer.name, r.value)
    ensures r.Some? && '.' !in answer.name ==> r.value == answer.name
  {
    match answer
    case DnsFailed => None
    case HostName(h) =>
      if '.' in h then
        LastTwoLabelsSpec(h);
        Some(LastTwoLabels(h))
      else if h == "" then None
      else Some(h)
  }

  /**
   * `_lookup_connection(ip)`: nothing unless the ASN reader found a record;
   * otherwise its number, its organisation (reported both as `org` and as
   * `isp`), its network, and the reverse-DNS domain when there is one.
   */
  function ConnectionOf(ip: string, o: Oracles): (c: Option<Connection>)
    ensures c.None? <==> !o.asn(ip).AsnFound?
    ensures c.Some? ==>
      var a := o.asn(ip).record;
      && c.value.asn == a.number
      && c.value.org == a.organization
      && c.value.isp == c.value.org
      && c.value.route == a.network
      && c.value.domain == LookupDomain(o.reverseDns(ip))
  {
    match o.asn(ip)
    case AsnFound(a) =>
      Some(Connection(a.number, a.organization, a.organization, a.network, LookupDomain(o.reverseDns(ip))))
    case _ => None
  }

  /**
   * `_lookup_connection` step by step: the base object is built from the ASN
   * record and the `domain` key is added only when the lookup found one. The
   * reverse-DNS query is made only after a successful ASN lookup.
   */
  method LookupConnection(ip: string, o: Oracles) returns (c: Option<Connection>, ghost queried: seq<Query>)
    ensures c == ConnectionOf(ip, o)
    ensures queried == [AsnQuery] + (if o.asn(ip).AsnFound? then [DnsQuery] else [])
  {
    queried := [AsnQuery];
    match o.asn(ip)
    case AsnFound(a) =>
      var domain := LookupDomain(o.reverseDns(ip));
      queried := queried + [DnsQuery];
      var connection := Connection(a.number, a.organization, a.organization, a.network, None);
      if domain.Some? {
        connection := connection.(domain := domain);
      }
      c := Some(connection);
    case AsnNotFound =>
      c := None;
    case AsnFailed(_) =>
      c := None;
  }

  /** `cc and cc in COUNTRY_META` */
  predicate HasMeta(cc: Option<string>, meta: CountryMetaTable) {
    Truthy(cc) && cc.value in meta
  }

  /**
   * The `flag` object for code `cc` and the stored flag `stored`: the stored
   * emoji unless it is missing or empty, in which case the emoji computed from
   * the code; the stored `U+XXXX` rendering unless it is missing or empty, in
   * which case the rendering of the chosen emoji; the stored SVG as it is.
   */
  function FlagFor(cc: string, stored: Option<StoredFlag>): (f: FlagInfo)
    ensures f.svg == if stored.Some? then stored.value.svg else None
    ensures stored.Some? && Truthy(stored.value.emoji) ==> f.emoji == stored.value.emoji
    ensures !(stored.Some? && Truthy(stored.value.emoji)) ==> f.emoji == CountryCodeToEmoji(Some(cc))
    ensures stored.Some? && Truthy(stored.value.emojiUnicode) ==> f.emojiUnicode == stored.value.emojiUnicode
    ensures !(stored.Some? && Truthy(stored.value.emojiUnicode)) ==> f.emojiUnicode == EmojiToUnicodeCodes(f.emoji)
  {
    var svg := if stored.Some? then stored.value.svg else None;
    var storedEmoji := if stored.Some? then stored.value.emoji else None;
    var storedCodes := if stored.Some? then stored.value.emojiUnicode else None;
    var emoji := if Truthy(storedEmoji) then storedEmoji else CountryCodeToEmoji(Some(cc));
    var codes := if Truthy(storedCodes) then storedCodes else EmojiToUnicodeCodes(emoji);
    FlagInfo(svg, emoji, codes)
  }

  /** The foreign calls a lookup of an address the parser accepted makes, in order. */
  function LookupQueries(ip: string, o: Oracles): seq<Query> {
    match o.city(ip)
    case CityFound(rec) =>
      var tz := rec.location.timeZone;
      [CityQuery] + (if Truthy(tz) then [ZoneQuery(tz.value)] else [])
        + [AsnQuery] + (if o.asn(ip).AsnFound? then [DnsQuery] else [])
    case _ => [CityQuery]
  }

  /**
   * `lookup_ip(ip)`. The error cases: an address the parser rejects gives
   * `invalid_ip` before any reader is consulted; a City miss gives `not_found`;
   * any other City failure gives `lookup_error:` and its message. Otherwise the
   * record copies the place fields, reports the address family, starts every
   * enrichment field as `None` and fills the metadata fields exactly when the
   * country code is non-empty and has an entry, the time zone from the
   * record's zone name and the connection from the ASN lookup.
   */
  method LookupIp(ip: string, o: Oracles, meta: CountryMetaTable)
    returns (result: Option<IpRecord>, err: Option<string>, ghost queried: seq<Query>)
    ensures o.parseIp(ip).None? ==> result.None? && err == Some(InvalidIp) && queried == []
    ensures o.parseIp(ip).Some? ==> queried == LookupQueries(ip, o)
    ensures o.parseIp(ip).Some? && o.city(ip).CityNotFound? ==> result.None? && err == Some(NotFound)
    ensures o.parseIp(ip).Some? && o.city(ip).CityFailed? ==>
      result.None? && err == Some(LookupErrorPrefix + o.city(ip).message)
    ensures result.Some? <==> o.parseIp(ip).Some? && o.city(ip).CityFound?
    ensures result.Some? ==>
      var rec, r := o.city(ip).record, result.value;
      && err.None?
      && r.ip == ip && r.success
      && r.addressType == AddressType(o.parseIp(ip).value.version)
      && r.place == PlaceFieldsOf(rec)
      && r.timezone == BuildTimezoneInfo(rec.location.timeZone, o.zone)
      && r.connection == ConnectionOf(ip, o)
    ensures result.Some? && !HasMeta(result.value.place.countryCode, meta) ==>
      var r := result.value;
      r.callingCode.None? && r.capital.None? && r.borders.None? && r.flag.None?
    ensures result.Some? && HasMeta(result.value.place.countryCode, meta) ==>
      var r := result.value;
      var cc := r.place.countryCode.value;
      && r.callingCode == meta[cc].callingCode
      && r.capital == meta[cc].capital
      && r.borders == meta[cc].borders
      && r.flag == Some(FlagFor(cc, meta[cc].flag))
  {
    var parsed := o.parseIp(ip);
    if parsed.None? {
      return None, Some(InvalidIp), [];
    }
    queried := [CityQuery];
    var rec: CityRecord;
    match o.city(ip) {
      case CityNotFound =>
        return None, Some(NotFound), queried;
      case CityFailed(msg) =>
        return None, Some(LookupErrorPrefix + msg), queried;
      case CityFound(found) =>
        rec := found;
    }

    var tzName := rec.location.timeZone;
    if Truthy(tzName) {
      queried := queried + [ZoneQuery(tzName.value)];
    }
    var timezone := BuildTimezoneInfo(tzName, o.zone);
    var place := PlaceFieldsOf(rec);
    var r := IpRecord(ip, true, AddressType(parsed.value.version), place,
      None, None, None, None, None, timezone);

    var cc := place.countryCode;
    if HasMeta(cc, meta) {
      var m := meta[cc.value];
      r := r.(callingCode := m.callingCode, capital := m.capital, borders := m.borders);
      r := r.(flag := Some(FlagFor(cc.value, m.flag)));
    }

    var connection, asnQueries := LookupConnection(ip, o);
    queried := queried + asnQueries;
    if connection.Some? {
      r := r.(connection := connection);
    }
    result, err := Some(r), None;
  }
}
