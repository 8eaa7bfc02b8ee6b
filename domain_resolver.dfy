/**
 * `services/NetRecon/domain_resolver.py`: a best-effort domain for an
 * address. Non-routable addresses are skipped; the reverse-DNS strategy is
 * tried first and the PeeringDB website of the address's ASN second. Both
 * strategies are memoised per key; the memo tables are the fields of a
 * `DomainResolver`, and the domain it returns is the pure `ResolveDomain`.
 */
module DomainResolution {
  import opened Wrappers
  import opened Text
  import opened Numerals
  import opened Externals
  import NetReconGeoip

  /** The three switches read from the settings. */
  datatype Config = Config(
    domainResolutionEnabled: bool,
    reverseDnsEnabled: bool,
    peeringDbScrapeEnabled: bool)

  /** Neither private, loopback, reserved nor link-local. */
  predicate Routable(a: IpAddress) {
    !(a.isPrivate || a.isLoopback || a.isReserved || a.isLinkLocal)
  }

  /** Resolution is switched on and `ip` parses as a routable address. */
  predicate Eligible(cfg: Config, ip: string, o: Oracles) {
    cfg.domainResolutionEnabled && o.parseIp(ip).Some? && Routable(o.parseIp(ip).value)
  }

  /** `x or None` for a string. */
  function NonEmpty(s: string): (r: Option<string>)
    ensures r.None? <==> s == ""
    ensures r.Some? ==> r.value == s
  {
    if s == "" then None else Some(s)
  }

  // ---------------------------------------------------------------------
  // `_normalize_domain`
  // ---------------------------------------------------------------------

  /** `"http://"` is put in front of a value that has no `://`, so that it parses as a URL. */
  function WithScheme(s: string): (r: string)
    ensures HasSubstring(r, "://")
    ensures HasSubstring(s, "://") ==> r == s
    ensures !HasSubstring(s, "://") ==> r == "http://" + s
  {
    if HasSubstring(s, "://") then s
    else
      var r := "http://" + s;
      assert r[4..][..3] == "://";
      HasSubstringAt(r, "://", 4);
      r
  }

  /** The host without one leading, case-sensitive `www.`. */
  function WithoutWww(host: string): (r: string)
    ensures StartsWith(host, "www.") ==> host == "www." + r
    ensures !StartsWith(host, "www.") ==> r == host
  {
    if StartsWith(host, "www.") then host[4..] else host
  }

  /** The host `urlparse` finds in the stripped value, with the scheme put in front when needed. */
  function HostOf(value: string, urlHost: string -> string): string {
    urlHost(WithScheme(Strip(value)))
  }

  /**
   * `_normalize_domain(value)`: nothing for a missing or blank value and for
   * one in which no host is found; otherwise that host without a leading
   * `www.`, in lower case. A host that is exactly `www.` normalises to the
   * empty string, which the caller's truthiness test then discards.
   */
  function NormalizeDomain(value: Option<string>, urlHost: string -> string): (r: Option<string>)
    ensures r.None? <==> !Truthy(value) || Strip(value.value) == "" || HostOf(value.value, urlHost) == ""
    ensures r.Some? ==> IsLowerCased(r.value)
    ensures r.Some? ==> r.value == Lower(WithoutWww(HostOf(value.value, urlHost)))
  {
    if !Truthy(value) then None
    else
      var stripped := Strip(value.value);
      if stripped == "" then None
      else
        var host := urlHost(WithScheme(stripped));
        if host == "" then None
        else Some(Lower(WithoutWww(host)))
  }

  /**
   * A URL with a scheme and no surrounding blanks, whose host is `www.` and a
   * lower-case name, normalises to that name.
   */
  lemma NormalizeUrlWithWww(url: string, name: string, urlHost: string -> string)
    requires url != "" && !IsSpace(url[0]) && !IsSpace(url[|url| - 1])
    requires HasSubstring(url, "://")
    requires urlHost(url) == "www." + name
    requires IsLowerCased(name)
    ensures NormalizeDomain(Some(url), urlHost).Some?
    ensures NormalizeDomain(Some(url), urlHost).value == name
  {
    StripUnpadded(url);
    var host := "www." + name;
    assert HostOf(url, urlHost) == host;
    assert host[..4] == "www.";
    assert WithoutWww(host) == name;
    LowerOfLowerCased(name);
  }

  const OvhcloudUrl := "https://www.ovhcloud.com"

  /** The URL of the example has no surrounding blanks and has a scheme. */
  lemma OvhcloudUrlShape()
    ensures OvhcloudUrl != "" && !IsSpace(OvhcloudUrl[0]) && !IsSpace(OvhcloudUrl[|OvhcloudUrl| - 1])
    ensures HasSubstring(OvhcloudUrl, "://")
  {
    assert OvhcloudUrl[5..][..3] == "://";
    HasSubstringAt(OvhcloudUrl, "://", 5);
  }

  /** The example of the docstring: `https://www.ovhcloud.com` becomes `ovhcloud.com`. */
  lemma NormalizeOvhcloud(urlHost: string -> string)
    requires urlHost(OvhcloudUrl) == "www.ovhcloud.com"
    ensures NormalizeDomain(Some(OvhcloudUrl), urlHost).Some?
    ensures NormalizeDomain(Some(OvhcloudUrl), urlHost).value == "ovhcloud.com"
  {
    OvhcloudUrlShape();
    assert "www." + "ovhcloud.com" == "www.ovhcloud.com";
    assert IsLowerCased("ovhcloud.com");
    NormalizeUrlWithWww(OvhcloudUrl, "ovhcloud.com", urlHost);
  }

  /** A host of exactly `www.` normalises to the empty string, not to nothing. */
  lemma NormalizeBareWww(urlHost: string -> string)
    requires urlHost("http://www.") == "www."
    ensures NormalizeDomain(Some("www."), urlHost).Some?
    ensures NormalizeDomain(Some("www."), urlHost).value == ""
  {
    StripUnpadded("www.");
    NoSubstringWithoutItsFirstChar("www.", "://");
    assert "http://" + "www." == "http://www.";
    assert HostOf("www.", urlHost) == "www.";
    assert "www."[..4] == "www.";
    assert WithoutWww("www.") == "";
  }

  // ---------------------------------------------------------------------
  // `_reverse_dns_cached`
  // ---------------------------------------------------------------------

  /**
   * `_reverse_dns_cached(ip)` on the answer of `gethostbyaddr`: nothing for a
   * failed lookup or an empty host name; otherwise, in lower case, the last
   * two labels of a dotted name and the whole of an undotted one. That is the
   * NetRecon lookup's reverse-DNS domain, lowered.
   */
  function ReverseDnsDomain(answer: DnsAnswer): (r: Option<string>)
    ensures r.None? <==> answer.DnsFailed? || answer.name == ""
    ensures r.Some? ==> r.value != "" && IsLowerCased(r.value)
    ensures r.Some? ==>
      && NetReconGeoip.LookupDomain(answer).Some?
      && r.value == Lower(NetReconGeoip.LookupDomain(answer).value)
  {
    match answer
    case DnsFailed => None
    case HostName(h) =>
      if h == "" then None
      else if '.' in h then
        LastTwoLabelsSpec(h);
        Some(Lower(LastTwoLabels(h)))
      else Some(Lower(h))
  }

  // ---------------------------------------------------------------------
  // `_fetch_peeringdb_website_html_cached`
  // ---------------------------------------------------------------------

  const PeeringDbAsnPrefix := "https://www.peeringdb.com/asn/"

  /** `f"https://www.peeringdb.com/asn/{asn}"` */
  function PeeringDbUrl(asn: int): (url: string)
    ensures StartsWith(url, PeeringDbAsnPrefix)
    ensures ParseInt(url[|PeeringDbAsnPrefix|..]) == Some(asn)
  {
    ParseIntRoundTrip(asn);
    var url := PeeringDbAsnPrefix + IntToDecimal(asn);
    assert url[..|PeeringDbAsnPrefix|] == PeeringDbAsnPrefix;
    assert url[|PeeringDbAsnPrefix|..] == IntToDecimal(asn);
    url
  }

  /** Distinct ASNs are fetched from distinct pages. */
  lemma PeeringDbUrlInjective(a: int, b: int)
    requires PeeringDbUrl(a) == PeeringDbUrl(b)
    ensures a == b
  {
  }

  /**
   * The website a PeeringDB answer gives: nothing for a failed request, a
   * status other than 200, a page that does not parse or one without the
   * website div. In the div, the first anchor's `href` unless it is missing or
   * empty, then that anchor's text; without an anchor, the div's own text;
   * an empty choice gives nothing.
   */
  function PeeringDbWebsite(answer: HttpAnswer): (r: Option<string>)
    ensures r.Some? ==> r.value != ""
    ensures r.Some? ==>
      && answer.HttpResponse? && answer.status == 200
      && answer.page.PageParsed? && answer.page.websiteDiv.Some?
    ensures (answer.HttpResponse? && answer.status == 200 && answer.page.PageParsed?
      && answer.page.websiteDiv.Some?) ==>
      var div := answer.page.websiteDiv.value;
      && (div.anchor.Some? && Truthy(div.anchor.value.href) ==> r == div.anchor.value.href)
      && (div.anchor.Some? && !Truthy(div.anchor.value.href) ==> r == NonEmpty(div.anchor.value.text))
      && (div.anchor.None? ==> r == NonEmpty(div.text))
  {
    match answer
    case RequestFailed => None
    case HttpResponse(status, page) =>
      if status != 200 then None
      else match page
        case PageUnparseable => None
        case PageParsed(websiteDiv) =>
          if websiteDiv.None? then None
          else
            var div := websiteDiv.value;
            var href :=
              if div.anchor.Some? then
                if Truthy(div.anchor.value.href) then div.anchor.value.href.value else div.anchor.value.text
              else div.text;
            NonEmpty(href)
  }

  /** The website cached for `asn`: the PeeringDB page of that ASN, as fetched. */
  function WebsiteOf(asn: int, o: Oracles): Option<string> {
    PeeringDbWebsite(o.httpGet(PeeringDbUrl(asn)))
  }

  // ---------------------------------------------------------------------
  // `resolve_domain_for_ip`
  // ---------------------------------------------------------------------

  /**
   * `resolve_domain_for_ip(ip, asn_number)`. Nothing unless resolution is on
   * and the address is valid and routable. The reverse-DNS domain wins when
   * that strategy is on and finds one; otherwise, when scraping is on and an
   * ASN is given, the normalised PeeringDB website if it is non-empty;
   * otherwise nothing. Whatever is returned is a non-empty lower-case string.
   */
  function ResolveDomain(cfg: Config, ip: string, asn: Option<int>, o: Oracles): (r: Option<string>)
    ensures r.Some? ==> Eligible(cfg, ip, o)
    ensures r.Some? ==> r.value != "" && IsLowerCased(r.value)
    ensures Eligible(cfg, ip, o) && cfg.reverseDnsEnabled && ReverseDnsDomain(o.reverseDns(ip)).Some? ==>
      r == ReverseDnsDomain(o.reverseDns(ip))
    ensures r.Some? && !(cfg.reverseDnsEnabled && ReverseDnsDomain(o.reverseDns(ip)).Some?) ==>
      && cfg.peeringDbScrapeEnabled && asn.Some?
      && r == NormalizeDomain(WebsiteOf(asn.value, o), o.urlHost)
    ensures (Eligible(cfg, ip, o) && !(cfg.reverseDnsEnabled && ReverseDnsDomain(o.reverseDns(ip)).Some?)
      && cfg.peeringDbScrapeEnabled && asn.Some? && Truthy(NormalizeDomain(WebsiteOf(asn.value, o), o.urlHost))) ==>
      r == NormalizeDomain(WebsiteOf(asn.value, o), o.urlHost)
  {
    if !Eligible(cfg, ip, o) then None else ByStrategies(cfg, ip, asn, o)
  }

  /** The two strategies in their order of priority, for an eligible address. */
  function ByStrategies(cfg: Config, ip: string, asn: Option<int>, o: Oracles): Option<string> {
    var rdns := if cfg.reverseDnsEnabled then ReverseDnsDomain(o.reverseDns(ip)) else None;
    if Truthy(rdns) then rdns
    else if cfg.peeringDbScrapeEnabled && asn.Some? then FromPeeringDb(asn.value, o)
    else None
  }

  /** The PeeringDB strategy: the normalised website of `asn`, when both are non-empty. */
  function FromPeeringDb(asn: int, o: Oracles): Option<string> {
    var website := WebsiteOf(asn, o);
    var normalized := NormalizeDomain(website, o.urlHost);
    if Truthy(website) && Truthy(normalized) then normalized else None
  }

  /** A foreign call made by a strategy: a PTR query for an address, or a PeeringDB fetch for an ASN. */
  datatype Lookup = ReverseDnsLookup(ip: string) | WebsiteLookup(asn: int)

  /**
   * Whether the strategies go on to PeeringDB: the reverse lookup is off or
   * found nothing, scraping is on, and an ASN is given.
   */
  predicate ReachesPeeringDb(cfg: Config, ip: string, asn: Option<int>, o: Oracles) {
    && !(cfg.reverseDnsEnabled && ReverseDnsDomain(o.reverseDns(ip)).Some?)
    && cfg.peeringDbScrapeEnabled && asn.Some?
  }

  /**
   * The foreign calls the strategies make for `ip` and `asn` when the two
   * caches are `dnsCache` and `websiteCache`: a PTR query when reverse DNS is
   * on and `ip` is not cached, then a PeeringDB fetch when that stage is
   * reached and `asn` is not cached.
   */
  ghost function StrategyCalls(cfg: Config, ip: string, asn: Option<int>, o: Oracles,
                               dnsCache: map<string, Option<string>>, websiteCache: map<int, Option<string>>): seq<Lookup> {
    DnsCalls(cfg, ip, dnsCache) + WebsiteCalls(cfg, ip, asn, o, websiteCache)
  }

  /** The PTR query of the reverse-DNS stage, unless `ip` is cached. */
  ghost function DnsCalls(cfg: Config, ip: string, dnsCache: map<string, Option<string>>): seq<Lookup> {
    if cfg.reverseDnsEnabled && ip !in dnsCache then [ReverseDnsLookup(ip)] else []
  }

  /** The PeeringDB fetch, when that stage is reached and `asn` is not cached. */
  ghost function WebsiteCalls(cfg: Config, ip: string, asn: Option<int>, o: Oracles,
                              websiteCache: map<int, Option<string>>): seq<Lookup> {
    if ReachesPeeringDb(cfg, ip, asn, o) && asn.value !in websiteCache then [WebsiteLookup(asn.value)] else []
  }

  /** No foreign call occurs twice in `trace`. */
  ghost predicate NoRepeatedLookup(trace: seq<Lookup>) {
    forall i, j | 0 <= i < j < |trace| :: trace[i] != trace[j]
  }

  /** Concatenation of call traces is associative. */
  lemma AppendAssoc(a: seq<Lookup>, b: seq<Lookup>, c: seq<Lookup>)
    ensures a + b + c == a + (b + c)
  {
  }

  /** Appending a call not made before keeps the calls distinct. */
  lemma AppendNewLookup(trace: seq<Lookup>, l: Lookup)
    requires NoRepeatedLookup(trace) && l !in trace
    ensures NoRepeatedLookup(trace + [l])
  {
  }

  /**
   * The module's state: the settings, the outside world it queries, and the
   * two `lru_cache` tables. `lookups` records every foreign call made.
   */
  class DomainResolver {
    const cfg: Config
    const world: Oracles
    var reverseDnsCache: map<string, Option<string>>
    var websiteCache: map<int, Option<string>>
    ghost var lookups: seq<Lookup>

    /**
     * Every cached value is what the strategy computes for its key, a key is
     * cached exactly when it was looked up, and no key was looked up twice.
     */
    ghost predicate Valid()
      reads this
    {
      CachesSound() && TraceMatchesCaches() && NoRepeatedLookup(lookups)
    }

    /** Every cached value is what its strategy computes for its key. */
    ghost predicate CachesSound()
      reads this
    {
      && (forall ip | ip in reverseDnsCache :: reverseDnsCache[ip] == ReverseDnsDomain(world.reverseDns(ip)))
      && (forall asn | asn in websiteCache :: websiteCache[asn] == WebsiteOf(asn, world))
    }

    /** A key is cached exactly when it was looked up. */
    ghost predicate TraceMatchesCaches()
      reads this
    {
      && (forall ip :: ip in reverseDnsCache <==> ReverseDnsLookup(ip) in lookups)
      && (forall asn :: asn in websiteCache <==> WebsiteLookup(asn) in lookups)
    }

    constructor (cfg: Config, world: Oracles)
      ensures this.cfg == cfg && this.world == world
      ensures reverseDnsCache == map[] && websiteCache == map[] && lookups == []
      ensures Valid()
    {
      this.cfg := cfg;
      this.world := world;
      reverseDnsCache := map[];
      websiteCache := map[];
      lookups := [];
    }

    /** `_reverse_dns_cached(ip)`: the DNS is queried only on the first call for `ip`. */
    method ReverseDnsCached(ip: string) returns (d: Option<string>)
      requires Valid()
      modifies this
      ensures Valid()
      ensures d == ReverseDnsDomain(world.reverseDns(ip))
      ensures reverseDnsCache == old(reverseDnsCache)[ip := d]
      ensures websiteCache == old(websiteCache)
      ensures lookups == old(lookups) + (if ip in old(reverseDnsCache) then [] else [ReverseDnsLookup(ip)])
    {
      if ip in reverseDnsCache {
        d := reverseDnsCache[ip];
      } else {
        d := ReverseDnsDomain(world.reverseDns(ip));
        reverseDnsCache := reverseDnsCache[ip := d];
        AppendNewLookup(lookups, ReverseDnsLookup(ip));
        lookups := lookups + [ReverseDnsLookup(ip)];
      }
    }

    /** `_fetch_peeringdb_website_html_cached(asn)`: the page is fetched only on the first call for `asn`. */
    method FetchWebsiteCached(asn: int) returns (w: Option<string>)
      requires Valid()
      modifies this
      ensures Valid()
      ensures w == WebsiteOf(asn, world)
      ensures websiteCache == old(websiteCache)[asn := w]
      ensures reverseDnsCache == old(reverseDnsCache)
      ensures lookups == old(lookups) + (if asn in old(websiteCache) then [] else [WebsiteLookup(asn)])
    {
      if asn in websiteCache {
        w := websiteCache[asn];
      } else {
        w := WebsiteOf(asn, world);
        websiteCache := websiteCache[asn := w];
        AppendNewLookup(lookups, WebsiteLookup(asn));
        lookups := lookups + [WebsiteLookup(asn)];
      }
    }

    /**
     * `resolve_domain_for_ip(ip, asn_number)` through the caches: the answer
     * is `ResolveDomain`, whatever was cached before. An ineligible address
     * touches no cache and makes no call. For an eligible one, the reverse-DNS
     * cache gains `ip` when that stage is on, the website cache gains the ASN
     * only when the PeeringDB stage is reached, and the calls made are exactly
     * the cache misses among those two keys.
     */
    method Resolve(ip: string, asn: Option<int>) returns (d: Option<string>)
      requires Valid()
      modifies this
      ensures Valid()
      ensures d == ResolveDomain(cfg, ip, asn, world)
      ensures reverseDnsCache ==
        if Eligible(cfg, ip, world) && cfg.reverseDnsEnabled
        then old(reverseDnsCache)[ip := ReverseDnsDomain(world.reverseDns(ip))]
        else old(reverseDnsCache)
      ensures websiteCache ==
        if Eligible(cfg, ip, world) && ReachesPeeringDb(cfg, ip, asn, world)
        then old(websiteCache)[asn.value := WebsiteOf(asn.value, world)]
        else old(websiteCache)
      ensures lookups == old(lookups) +
        if Eligible(cfg, ip, world)
        then StrategyCalls(cfg, ip, asn, world, old(reverseDnsCache), old(websiteCache))
        else []
    {
      if !cfg.domainResolutionEnabled {
        return None;
      }
      var parsed := world.parseIp(ip);
      if parsed.None? || !Routable(parsed.value) {
        return None;
      }
      d := RunStrategies(ip, asn);
    }

    /** The strategy part of `resolve_domain_for_ip`, for an address that passed the filters. */
    method RunStrategies(ip: string, asn: Option<int>) returns (d: Option<string>)
      requires Valid()
      modifies this
      ensures Valid()
      ensures d == ByStrategies(cfg, ip, asn, world)
      ensures reverseDnsCache ==
        if cfg.reverseDnsEnabled
        then old(reverseDnsCache)[ip := ReverseDnsDomain(world.reverseDns(ip))]
        else old(reverseDnsCache)
      ensures websiteCache ==
        if ReachesPeeringDb(cfg, ip, asn, world)
        then old(websiteCache)[asn.value := WebsiteOf(asn.value, world)]
        else old(websiteCache)
      ensures lookups == old(lookups) + StrategyCalls(cfg, ip, asn, world, old(reverseDnsCache), old(websiteCache))
    {
      ghost var before, websites := lookups, websiteCache;
      var rdns: Option<string> := None;
      if cfg.reverseDnsEnabled {
        rdns := ReverseDnsCached(ip);
      }
      assert lookups == before + DnsCalls(cfg, ip, old(reverseDnsCache));
      ghost var afterDns := lookups;
      assert Truthy(rdns) <==> cfg.reverseDnsEnabled && ReverseDnsDomain(world.reverseDns(ip)).Some?;
      if Truthy(rdns) {
        d := rdns;
      } else if cfg.peeringDbScrapeEnabled && asn.Some? {
        d := PeeringDbStrategy(asn.value);
      } else {
        d := None;
      }
      assert lookups == afterDns + WebsiteCalls(cfg, ip, asn, world, websites);
      AppendAssoc(before, DnsCalls(cfg, ip, old(reverseDnsCache)), WebsiteCalls(cfg, ip, asn, world, websites));
    }

    /** The PeeringDB part of `resolve_domain_for_ip`: fetch through the cache, then normalise. */
    method PeeringDbStrategy(asn: int) returns (d: Option<string>)
      requires Valid()
      modifies this
      ensures Valid()
      ensures d == FromPeeringDb(asn, world)
      ensures websiteCache == old(websiteCache)[asn := WebsiteOf(asn, world)]
      ensures reverseDnsCache == old(reverseDnsCache)
      ensures lookups == old(lookups) + (if asn in old(websiteCache) then [] else [WebsiteLookup(asn)])
    {
      var website := FetchWebsiteCached(asn);
      d := None;
      if Truthy(website) {
        var normalized := NormalizeDomain(website, world.urlHost);
        if Truthy(normalized) {
          d := normalized;
        }
      }
    }
  }
}
