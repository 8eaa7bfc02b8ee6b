# iphyer: a verified model of the IP lookup core

iphyer answers "what is this IP address?". It has two services, NetRecon and API. Each
validates an address and locates it in a GeoLite2 City database. It enriches the record
with country metadata and the ASN (autonomous system) connection, then answers
`(result, None)` or `(None, error)`. NetRecon turns the record's zone name into a time-zone
object with the current offset; API keeps the zone name as it is. NetRecon also holds the parts around the lookup:
- a domain resolver that tries reverse DNS, then the operator's website on PeeringDB;
- in-memory request metrics;
- their Prometheus text exposition.

Both services have a generator that turns RestCountries data into the country-metadata file
the lookups read.

This project models that core in Dafny, one module per source file:

| module | file | models |
|---|---|---|
| `NetReconGeoip` | `netrecon_geoip.dfy` | `services/NetRecon/geoip_resolver.py` |
| `Timezone` | `timezone.dfy` | its `_build_timezone_info` and the `±HH:MM` rendering |
| `Flags` | `flags.dfy` | the two emoji helpers; the generator has an identical copy |
| `Places` | `places.dfy` | the place fields and error constants both lookups share |
| `ApiGeoip` | `api_geoip.dfy` | `api/geoip_resolver.py` |
| `DomainResolution` | `domain_resolver.dfy` | `services/NetRecon/domain_resolver.py` |
| `MetricsCollector` | `metrics.dfy` | `services/NetRecon/metrics.py` |
| `PrometheusExport` | `prometheus.dfy` | `services/NetRecon/prometheus_exporter.py` |
| `CountryFields` | `country_fields.dfy` | the field fallbacks and the keyed loop both generators share |
| `NetReconCountryMeta` | `netrecon_country_meta.dfy` | `services/NetRecon/generate_country_meta.py` |
| `ApiCountryMeta` | `api_country_meta.dfy` | `api/generate_country_meta.py` |

Support modules:
- `Wrappers`: `Option`.
- `Text`: ASCII case, Python `strip`, split and join, the last two labels of a host name.
- `Numerals`: decimal and hexadecimal rendering and parsing.
- `Externals`: the answers of the foreign libraries.

Foreign calls become fields of one `Oracles` value: the address parser, the City and ASN
readers, reverse DNS, `ZoneInfo`, `requests.get` with BeautifulSoup, and `urlparse`. Each
answer is a datatype with one constructor per outcome the code distinguishes, such as found,
not found, or failed with a message. So every `except` branch is a case of the model.

The code's shape is kept:
- Both `lookup_ip` functions build their result dictionary step by step. They are methods, with a
  ghost trace of the readers they consulted.
- The memoised domain lookups are a class, `DomainResolver`. It holds the two caches and a ghost
  log of the network lookups made.
- `Metrics` is a class whose methods update its counters.
- The exporter's and the generators' loops are `while`/`for` loops. Each is proved equal to a
  function, and the properties are proved about that function.

Points of the code's behaviour worth noting:
- The NetRecon lookup does not call the domain resolver. Its connection's `domain` comes from its
  own `_lookup_domain`, which does reverse DNS for any address with an ASN record, private ones
  included. It does not lower-case the name, and it runs only after a successful ASN lookup.
- The resolvers return only the domain string, not which strategy produced it.
- The API generator writes borders as RestCountries gives them (alpha-3 codes), not alpha-2. The
  NetRecon generator writes no PNG address.
- An unloadable zone is reported as an object with only its identifier. It is not `null`.

## Model

| member | source | states |
|---|---|---|
| NetReconGeoip.LookupDomain | services/NetRecon/geoip_resolver.py:58-72 | a failed lookup or an empty host name gives nothing; a dotted name gives its last two labels unchanged in case; an undotted name is returned whole; any result is non-empty |
| NetReconGeoip.ConnectionOf | services/NetRecon/geoip_resolver.py:33-55 | a connection exists exactly when the ASN reader found a record; it carries the number, the organisation as both `org` and `isp`, the network and the reverse-DNS domain |
| NetReconGeoip.LookupConnection | services/NetRecon/geoip_resolver.py:33-55 | the step-by-step construction equals `ConnectionOf`; reverse DNS is queried only after a successful ASN lookup |
| NetReconGeoip.FlagFor | services/NetRecon/geoip_resolver.py:190-200 | the stored SVG as is; the stored emoji unless falsy, else the emoji computed from the code; the stored code rendering unless falsy, else the rendering of the chosen emoji |
| NetReconGeoip.LookupIp | services/NetRecon/geoip_resolver.py:133-210 | `invalid_ip` with no reader call; `not_found`; `lookup_error:` plus the message; otherwise a success record with the place fields, address family, time-zone object and connection; metadata fields filled exactly when the code is non-empty and known; the trace of reader calls in order |
| Timezone.BuildTimezoneInfo | services/NetRecon/geoip_resolver.py:75-109 | nothing for a missing or empty name; only the identifier when the zone cannot be loaded; otherwise offset, DST flag and `utc` string from the zone's current reading, with a zero offset when the zone reports none |
| Timezone.FormatUtcOffsetRoundTrip | services/NetRecon/geoip_resolver.py:95-100 | the sign is `+` exactly for non-negative offsets, and the rendering reads back as the offset truncated toward zero to whole minutes |
| Timezone.WholeMinuteOffsetRoundTrip | services/NetRecon/geoip_resolver.py:95-100 | an offset of whole minutes reads back exactly from its rendering |
| Timezone.TruncateToMinutesBounds | services/NetRecon/geoip_resolver.py:96-99 | the minutes the rendering keeps are the offset truncated toward zero to a multiple of sixty seconds |
| Timezone.FormatZeroOffset | services/NetRecon/geoip_resolver.py:96-100 | an offset of zero is written `+00:00` |
| Timezone.FormatSixHoursWest | services/NetRecon/geoip_resolver.py:96-100 | an offset of -21600 seconds is written `-06:00` |
| Flags.CountryCodeToEmoji | services/NetRecon/geoip_resolver.py:112-123 | an emoji exactly for a two-character code whose shifted code points `chr` accepts; its two characters are the regional indicators of the upper-cased characters |
| Flags.EmojiRoundTrip | services/NetRecon/geoip_resolver.py:112-123 | every two-letter code has a flag, and the flag reads back as the upper-cased code |
| Flags.EmojiToUnicodeCodes | services/NetRecon/geoip_resolver.py:126-130 | nothing exactly for a missing or empty emoji |
| Text.LastTwoLabelsSpec | services/NetRecon/geoip_resolver.py:68-70 | joining the last two parts of a dotted name split on dots gives a suffix of the name with exactly one dot, starting right after a dot or at the start |
| Text.SplitJoin | services/NetRecon/geoip_resolver.py:130 | splitting a joined sequence of separator-free parts gives the parts back |
| Text.Strip | services/NetRecon/domain_resolver.py:33 | the result is the input without its leading and trailing whitespace |
| Flags.UnicodeCodesRoundTrip | services/NetRecon/geoip_resolver.py:126-130 | one `U+XXXX` token per character, which reads back as the original string |
| Places.AddressType | services/NetRecon/geoip_resolver.py:162 | `ipv4` exactly for IPv4 addresses, `ipv6` otherwise |
| Places.PlaceFieldsOf | services/NetRecon/geoip_resolver.py:150-173 | each place field is `None` when the record lacks the continent, country or subdivision it is read from, and otherwise the English name, code or EU flag of that part; city, postal code and coordinates are copied |
| ApiGeoip.LookupConnection | api/geoip_resolver.py:34-48 | a connection exists exactly when the ASN reader found a record; number, organisation as `org` and `isp`, network; no domain |
| ApiGeoip.LookupIp | api/geoip_resolver.py:50-131 | the same three errors as NetRecon; the raw zone identifier; metadata fields exactly when the code is non-empty and known; `flag` exactly when the entry has a non-empty flag object, with its emoji, SVG and PNG |
| DomainResolution.WithScheme | services/NetRecon/domain_resolver.py:37-39 | the result always contains `://`; a value with a scheme is unchanged, any other gets `http://` in front |
| DomainResolution.WithoutWww | services/NetRecon/domain_resolver.py:46-48 | a host starting with `www.` loses exactly that prefix; any other is unchanged |
| DomainResolution.NormalizeDomain | services/NetRecon/domain_resolver.py:28-50 | nothing exactly for a falsy value, a blank value or an empty parsed host; otherwise the lower-cased host without `www.` |
| DomainResolution.NormalizeUrlWithWww | services/NetRecon/domain_resolver.py:28-50 | an unpadded URL with a scheme whose host is `www.` plus a lower-case name normalises to that name |
| DomainResolution.NormalizeOvhcloud | services/NetRecon/domain_resolver.py:29 | `https://www.ovhcloud.com` normalises to `ovhcloud.com` |
| DomainResolution.NormalizeBareWww | services/NetRecon/domain_resolver.py:43-50 | the host `www.` passes the emptiness check and normalises to the empty string |
| DomainResolution.NonEmpty | services/NetRecon/domain_resolver.py:113 | nothing exactly for the empty string, the string itself otherwise |
| DomainResolution.ReverseDnsDomain | services/NetRecon/domain_resolver.py:53-72 | nothing exactly for a failed lookup or an empty name; otherwise non-empty, lower-cased, and the lower-cased form of what the lookup's own reverse DNS gives |
| DomainResolution.PeeringDbUrl | services/NetRecon/domain_resolver.py:78 | the page address is the PeeringDB ASN prefix followed by the decimal ASN, which reads back as the ASN |
| DomainResolution.PeeringDbUrlInjective | services/NetRecon/domain_resolver.py:78 | different ASNs have different PeeringDB page addresses, so the website cache keyed by ASN caches one page per address |
| DomainResolution.PeeringDbWebsite | services/NetRecon/domain_resolver.py:79-113 | a website only for a 200 response whose page parses and has the website div; the anchor's `href`, else the anchor's text, else the div's text; never empty |
| DomainResolution.ResolveDomain | services/NetRecon/domain_resolver.py:116-150 | nothing when resolution is off or the address is non-routable or invalid; a reverse-DNS domain wins when that stage is on and finds one; otherwise the normalised PeeringDB website when that stage is on and the ASN is known; any result is non-empty and lower-cased |
| DomainResolution.DomainResolver.constructor | services/NetRecon/domain_resolver.py:53-54 | both caches and the lookup log start empty |
| DomainResolution.DomainResolver.ReverseDnsCached | services/NetRecon/domain_resolver.py:53-72 | returns the reverse-DNS domain; the cache holds it afterwards; a network lookup is logged only on a cache miss |
| DomainResolution.DomainResolver.FetchWebsiteCached | services/NetRecon/domain_resolver.py:75-113 | returns the PeeringDB website; the cache holds it afterwards; a network lookup is logged only on a cache miss |
| DomainResolution.DomainResolver.Resolve | services/NetRecon/domain_resolver.py:116-150 | the result equals `ResolveDomain`, so a second call gives the same answer; caches stay coherent and no key is ever looked up twice; an ineligible address touches neither cache and makes no call; otherwise the reverse-DNS cache gains exactly `ip` when that stage is on, the website cache gains exactly the ASN when the PeeringDB stage is reached, and the calls made are exactly the cache misses among those keys |
| DomainResolution.DomainResolver.RunStrategies | services/NetRecon/domain_resolver.py:136-150 | the two strategies in priority order, equal to their pure description; the new reverse-DNS cache, website cache and call log exactly: `ip` added when reverse DNS is on, the ASN added only when PeeringDB is reached, a call for each of them that missed its cache |
| DomainResolution.DomainResolver.PeeringDbStrategy | services/NetRecon/domain_resolver.py:142-148 | the PeeringDB stage, equal to its pure description; the website cache gains exactly the ASN, the reverse-DNS cache is untouched, and one fetch is logged exactly when the ASN was not cached |
| MetricsCollector.Metrics.constructor | services/NetRecon/metrics.py:10-19 | all counters zero, no keys, no request seen, conservation holds |
| MetricsCollector.Metrics.RecordRequest | services/NetRecon/metrics.py:21-36 | one more request in total, under its path and under its status; one more success exactly for a status in `[200, 400)`, else one more error; latency added; timestamps set; conservation kept |
| MetricsCollector.SumBump | services/NetRecon/metrics.py:27-28 | counting one more occurrence of a key adds one to the sum of a counter map |
| MetricsCollector.BumpCount | services/NetRecon/metrics.py:27-28 | a `defaultdict` increment adds one to its key only |
| MetricsCollector.AverageLatency | services/NetRecon/metrics.py:41-45 | zero before the first request, otherwise the value whose product with the count is the total latency |
| MetricsCollector.Metrics.Snapshot | services/NetRecon/metrics.py:38-56 | copies of the totals and maps, the average latency, the timestamps; the copied totals satisfy conservation |
| MetricsCollector.ThreeRequests | services/NetRecon/metrics.py:21-36 | requests answered 200, 404 and 500 leave three requests, one success, two errors, each status counted once |
| PrometheusExport.SanitizeIsEscape | services/NetRecon/prometheus_exporter.py:4-10 | the three chained replacements escape each character independently (backslashes are doubled first) |
| PrometheusExport.SanitizeRoundTrip | services/NetRecon/prometheus_exporter.py:4-10 | a reader of the exposition format gets the original label value back from the sanitised one |
| PrometheusExport.SanitizeNoNewline | services/NetRecon/prometheus_exporter.py:4-10 | a sanitised label value holds no raw newline |
| PrometheusExport.SanitizePlain | services/NetRecon/prometheus_exporter.py:4-10 | a value without backslash, newline or quote is unchanged |
| PrometheusExport.TruncateReal | services/NetRecon/prometheus_exporter.py:48 | `int()` truncates toward zero |
| PrometheusExport.LabelledSampleReadsBack | services/NetRecon/prometheus_exporter.py:56-57 | a labelled sample line reads back to its label value, followed by the closing brace and the sample value |
| PrometheusExport.StatusLineReadsBack | services/NetRecon/prometheus_exporter.py:62-64 | the status label of a status sample reads back as the status code |
| PrometheusExport.WithoutNoneKeys | services/NetRecon/prometheus_exporter.py:53-55 | the kept entries all have a path |
| PrometheusExport.PathLines | services/NetRecon/prometheus_exporter.py:53-57 | `None` paths are skipped; one labelled sample per other entry, in iteration order |
| PrometheusExport.MapLines | services/NetRecon/prometheus_exporter.py:62-64 | one line per entry, in order |
| PrometheusExport.AppendPathSamples | services/NetRecon/prometheus_exporter.py:53-57 | the loop over `by_path` appends exactly the path lines |
| PrometheusExport.AppendStatusSamples | services/NetRecon/prometheus_exporter.py:62-64 | the loop over `by_status_code` appends exactly the status lines |
| PrometheusExport.FormatPrometheusMetrics | services/NetRecon/prometheus_exporter.py:13-67 | the five unlabelled families, then the two labelled families, each headed by HELP and TYPE, joined by newlines with a final newline |
| PrometheusExport.ExpositionLineCount | services/NetRecon/prometheus_exporter.py:25-64 | nineteen fixed lines plus one per kept path and one per status |
| PrometheusExport.TimestampLine | services/NetRecon/prometheus_exporter.py:45-48 | the timestamp sample carries the integer part of the timestamp, zero when it is missing |
| CountryFields.CountryName | services/NetRecon/generate_country_meta.py:67-68 | the common name, else the official name, else the code; never empty for a non-empty code |
| CountryFields.FirstCapital | services/NetRecon/generate_country_meta.py:71-72 | the first capital exactly when the list is present and non-empty |
| CountryFields.CallingCode | services/NetRecon/generate_country_meta.py:75-83 | a code exactly when the root is non-empty; root plus the first suffix, or the root alone; always starts with the root |
| CountryFields.FlagSvgUrl | services/NetRecon/generate_country_meta.py:92-99 | the flagcdn address followed by the lower-cased code and `.svg` |
| CountryFields.FlagPngUrl | api/generate_country_meta.py:61-65 | the flagcdn address followed by `w320/`, the lower-cased code and `.png` |
| CountryFields.FlagUrlsIgnoreCase | services/NetRecon/generate_country_meta.py:92-99 | two codes share their flag image addresses exactly when they agree up to case |
| CountryFields.CodeKey | services/NetRecon/generate_country_meta.py:60-64 | an entry has a key exactly when its `cca2` is non-empty; the key is the upper-cased code |
| CountryFields.IndexByKeys | api/generate_country_meta.py:29-74 | the dictionary's keys are exactly the keys of the entries |
| CountryFields.IndexByLastWins | api/generate_country_meta.py:68-74 | the value under a key is that of the last entry with the key |
| CountryFields.IndexByValue | api/generate_country_meta.py:68-74 | every value was stored by an entry with its key, the last such entry |
| NetReconCountryMeta.Alpha3Key | services/NetRecon/generate_country_meta.py:48-51 | an entry contributes exactly when both codes are non-empty, under its upper-cased alpha-3 code |
| NetReconCountryMeta.BuildAlpha3ToAlpha2Map | services/NetRecon/generate_country_meta.py:44-52 | the loop builds the keyed dictionary of upper-cased alpha-3 to alpha-2 codes |
| NetReconCountryMeta.Alpha3ToAlpha2Keys | services/NetRecon/generate_country_meta.py:47-51 | the keys are exactly the upper-cased alpha-3 codes of the entries with both codes |
| NetReconCountryMeta.Alpha3ToAlpha2UpperCased | services/NetRecon/generate_country_meta.py:50-51 | keys and values are non-empty and upper-cased |
| NetReconCountryMeta.Alpha3ToAlpha2Entry | services/NetRecon/generate_country_meta.py:47-51 | an entry maps its alpha-3 code to its alpha-2 code unless a later entry has the same alpha-3 code |
| NetReconCountryMeta.Borders | services/NetRecon/generate_country_meta.py:86-89 | one code per neighbour, in order, each looked up on its upper-cased form |
| NetReconCountryMeta.BordersUpperCased | services/NetRecon/generate_country_meta.py:86-89 | with the generated map every neighbour is written upper-cased |
| NetReconCountryMeta.BorderOfKnownCode | services/NetRecon/generate_country_meta.py:88 | a neighbour whose alpha-3 code the map knows is written as its alpha-2 code, whatever its case |
| NetReconCountryMeta.FlagOf | services/NetRecon/generate_country_meta.py:92-100 | an emoji exactly for a two-character code with regional indicators; a code rendering exactly when there is an emoji, which reads back as that emoji; the flagcdn SVG address of the lower-cased code |
| NetReconCountryMeta.BuildCountryMeta | services/NetRecon/generate_country_meta.py:55-110 | the loop builds the dictionary keyed by upper-cased code, skipping entries without a code |
| NetReconCountryMeta.CountryMetaKeys | services/NetRecon/generate_country_meta.py:59-64 | the keys are exactly the upper-cased non-empty codes, and are upper-cased and non-empty |
| NetReconCountryMeta.CountryMetaEntry | services/NetRecon/generate_country_meta.py:102-108 | the entry under a code is built from the last entry with the code, and its name is non-empty |
| NetReconCountryMeta.GeneratedEmojiReadsBack | services/NetRecon/generate_country_meta.py:93 | a two-letter code's generated emoji exists and reads back as the code it is stored under |
| NetReconCountryMeta.LookupFlagMatchesGenerated | services/NetRecon/geoip_resolver.py:190-200 | for a generated entry, the flag the lookup reports is the written one, whether or not the emoji could be computed |
| ApiCountryMeta.EntryOf | api/generate_country_meta.py:36-74 | neighbours copied unchanged or `[]`; flag without emoji, with the flagcdn SVG and 320-pixel PNG addresses of the lower-cased code; a non-empty name for a non-empty code; a capital exactly when the list is non-empty; name, capital and calling code by the shared fallbacks |
| ApiCountryMeta.BuildCountryMeta | api/generate_country_meta.py:25-76 | the loop builds the dictionary keyed by upper-cased code, skipping entries without a code |
| ApiCountryMeta.CountryMetaKeys | api/generate_country_meta.py:29-34 | the keys are exactly the upper-cased non-empty codes, and are upper-cased and non-empty |
| ApiCountryMeta.CountryMetaLastWins | api/generate_country_meta.py:68-74 | a later entry with the same code replaces an earlier one |
| ApiCountryMeta.StoredFlagOfCode | api/generate_country_meta.py:60-66 | every stored flag has no emoji and the SVG and PNG addresses of its own code |

## Left out

- Module-level I/O is not modelled: opening the GeoLite2 databases, loading `country_meta.json`,
  `fetch_countries`, `main` and its file writing, and every `print`. The country table is a
  parameter. Reading a generated entry back is the `AsStored` function.
- `config.py`, `app.py` and `logging_config.py` are not part of this model. The configuration
  toggles are a `Config` value.
- `threading.Lock` in `Metrics` and any concurrent use of the caches are not modelled: each
  method is one atomic step.
- DomainResolution.DomainResolver.Resolve: the `lru_cache` capacity and least-recently-used
  eviction are not modelled. The caches grow without bound, so "each key is looked up at most
  once" holds only for an unbounded cache.
- DomainResolution.DomainResolver: the oracles' answers are fixed for the resolver's lifetime,
  so a cached entry always equals a fresh answer. A DNS record or PeeringDB page that changes
  after it was cached leaves a stale `lru_cache` entry in the code; stale entries are not modelled.
- DNS and HTTP timeouts are not modelled: a timed-out call is one of the failure answers.
- The foreign libraries are oracles, not models: `ipaddress` parsing and its classification,
  the geoip2 readers, `socket.gethostbyaddr`, `ZoneInfo` with `datetime.now`, `requests`,
  BeautifulSoup's selector search and `urlparse`. The time-zone abbreviation and ISO time are
  strings the oracle supplies.
- Python floats are Dafny reals. The float rendering of the average latency in the exposition
  is a parameter. The clock reading in `record_request` is a parameter.
- `str.upper`, `str.lower` and the case change in the emoji helper are modelled on ASCII
  letters only. Unicode case mapping has no counterpart here.
- JSON values are assumed to have the types the code expects: strings for codes, names and
  capitals, lists of strings for capitals, suffixes and borders.
- Dictionary iteration order is not modelled. The exporter takes a snapshot's maps as entry
  sequences in iteration order, and `Metrics` keeps its counters in Dafny maps.
- PrometheusExport.FormatPrometheusMetrics: `str(path)` of a non-string key and snapshot values
  of unexpected types are not modelled. Counts and totals are integers, a missing or falsy one
  reads as zero.
