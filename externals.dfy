/**
 * What the resolver receives from code it does not own: the `ipaddress`
 * parser and its classification predicates, the geoip2 City and ASN readers,
 * `socket.gethostbyaddr`, `ZoneInfo` with the current time, `requests.get`
 * with BeautifulSoup's view of the PeeringDB page, `urlparse`, and the
 * country-metadata JSON file. Each foreign call is a field of `Oracles`
 * returning one of the answers below; the model never looks inside them.
 */
module Externals {
  import opened Wrappers

  datatype IpVersion = IPv4 | IPv6

  /** A successfully parsed address with the `ipaddress` properties the resolver tests. */
  datatype IpAddress = IpAddress(
    version: IpVersion,
    isPrivate: bool,
    isLoopback: bool,
    isReserved: bool,
    isLinkLocal: bool)

  /** A continent or a subdivision: its English name (if any) and its code. */
  datatype NamedPlace = NamedPlace(nameEn: Option<string>, code: Option<string>)

  datatype CountryRecord = CountryRecord(
    nameEn: Option<string>,
    isoCode: Option<string>,
    isInEuropeanUnion: bool)

  /** Coordinates are copied, never computed with, so exact reals stand for the floats. */
  datatype Location = Location(
    latitude: Option<real>,
    longitude: Option<real>,
    timeZone: Option<string>)

  /** The parts of a geoip2 City answer that the resolver reads; `None` is an absent record. */
  datatype CityRecord = CityRecord(
    continent: Option<NamedPlace>,
    country: Option<CountryRecord>,
    region: Option<NamedPlace>,
    cityName: Option<string>,
    location: Location,
    postal: Option<string>)

  /** `city_reader.city(ip)`: a record, `AddressNotFoundError`, or any other exception. */
  datatype CityAnswer = CityFound(record: CityRecord) | CityNotFound | CityFailed(message: string)

  /** `network` is `str(asn.network)`, the routed prefix in CIDR notation. */
  datatype AsnRecord = AsnRecord(number: Option<int>, organization: Option<string>, network: string)

  /** `asn_reader.asn(ip)`: a record, `AddressNotFoundError`, or any other exception. */
  datatype AsnAnswer = AsnFound(record: AsnRecord) | AsnNotFound | AsnFailed(message: string)

  /** `socket.gethostbyaddr(ip)[0]`, or any exception it raises. */
  datatype DnsAnswer = HostName(name: string) | DnsFailed

  /**
   * `ZoneInfo(name)` and `datetime.now(tz)`: either the zone cannot be loaded,
   * or the current instant in it, with its abbreviation, UTC offset and DST
   * offset in whole seconds (`None` where Python gives `None`) and its ISO 8601
   * rendering.
   */
  datatype ZoneAnswer =
    | ZoneUnloadable
    | ZoneLoaded(abbreviation: Option<string>, utcOffset: Option<int>, dstOffset: Option<int>, isoNow: string)

  /** The first `<a>` inside the website div: its `href` attribute and its stripped text. */
  datatype Anchor = Anchor(href: Option<string>, text: string)

  /** The PeeringDB `div` whose `data-edit-name` is `website`, and its stripped text. */
  datatype WebsiteDiv = WebsiteDiv(anchor: Option<Anchor>, text: string)

  /** BeautifulSoup's view of a page: it failed to parse, or the website div it found (if any). */
  datatype PageAnswer = PageUnparseable | PageParsed(websiteDiv: Option<WebsiteDiv>)

  /** `requests.get(url)`: an exception, or a response with its status code. */
  datatype HttpAnswer = RequestFailed | HttpResponse(status: int, page: PageAnswer)

  /** The foreign calls, one function per library entry point. */
  datatype Oracles = Oracles(
    parseIp: string -> Option<IpAddress>,
    city: string -> CityAnswer,
    asn: string -> AsnAnswer,
    reverseDns: string -> DnsAnswer,
    zone: string -> ZoneAnswer,
    httpGet: string -> HttpAnswer,
    /** `parsed.hostname or parsed.path` of `urlparse(value)`, `""` when both are empty. */
    urlHost: string -> string)

  /**
   * The `flag` object of a country-metadata entry as `.get` reads it: a key that
   * is missing or `null` is `None`. The entry's `flag` field is `None` when the
   * object is missing, `null` or empty (all falsy in Python).
   */
  datatype StoredFlag = StoredFlag(
    emoji: Option<string>,
    emojiUnicode: Option<string>,
    svg: Option<string>,
    png: Option<string>)

  /** One value of the country-metadata JSON file, as `.get` reads it. */
  datatype StoredMeta = StoredMeta(
    callingCode: Option<string>,
    capital: Option<string>,
    borders: Option<seq<string>>,
    flag: Option<StoredFlag>)

  /** `COUNTRY_META`: the JSON file keyed by alpha-2 code, or empty when the file is missing. */
  type CountryMetaTable = map<string, StoredMeta>
}
