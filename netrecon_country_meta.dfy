/**
 * `services/NetRecon/generate_country_meta.py`: the generator of the NetRecon
 * service's country-metadata file. It first maps every alpha-3 code to its
 * alpha-2 code, then writes one entry per alpha-2 code with the name, the
 * capital, the calling code, the neighbours translated to alpha-2 codes and
 * the flag (emoji, its `U+XXXX` rendering and the flagcdn SVG).
 */
module NetReconCountryMeta {
  import opened Wrappers
  import opened Text
  import opened Flags
  import opened Externals
  import opened CountryFields
  import NetReconGeoip

  /** The `flag` object the generator writes. */
  datatype GeneratedFlag = GeneratedFlag(emoji: Option<string>, emojiUnicode: Option<string>, svg: string)

  /** One value of the generated file. */
  datatype GeneratedMeta = GeneratedMeta(
    name: string,
    callingCode: Option<string>,
    capital: Option<string>,
    borders: seq<string>,
    flag: GeneratedFlag)

  // ---------------------------------------------------------------------
  // `build_alpha3_to_alpha2_map`
  // ---------------------------------------------------------------------

  /** An entry contributes to the alpha-3 map only when both codes are non-empty. */
  function Alpha3Key(c: RawCountry): (k: Option<string>)
    ensures k.Some? <==> Truthy(c.cca2) && Truthy(c.cca3)
    ensures k.Some? ==> k.value == Upper(c.cca3.value)
  {
    if Truthy(c.cca2) && Truthy(c.cca3) then Some(Upper(c.cca3.value)) else None
  }

  /** The upper-cased alpha-2 code of an entry. */
  function Alpha2Of(c: RawCountry): string {
    Upper(c.cca2.GetOr(""))
  }

  /** The mapping `build_alpha3_to_alpha2_map` returns. */
  function Alpha3ToAlpha2(raw: seq<RawCountry>): map<string, string> {
    IndexBy(raw, Alpha3Key, Alpha2Of)
  }

  /** `build_alpha3_to_alpha2_map(raw_countries)`: the loop over the entries. */
  method BuildAlpha3ToAlpha2Map(raw: seq<RawCountry>) returns (mapping: map<string, string>)
    ensures mapping == Alpha3ToAlpha2(raw)
  {
    mapping := map[];
    for i := 0 to |raw|
      invariant mapping == Alpha3ToAlpha2(raw[..i])
    {
      var c := raw[i];
      assert raw[..i + 1][..i] == raw[..i];
      var cca2, cca3 := c.cca2, c.cca3;
      if Truthy(cca2) && Truthy(cca3) {
        mapping := mapping[Upper(cca3.value) := Upper(cca2.value)];
      }
    }
    assert raw[..|raw|] == raw;
  }

  /** Keys and values of the alpha-3 map are non-empty and upper-cased. */
  lemma Alpha3ToAlpha2UpperCased(raw: seq<RawCountry>, k: string)
    requires k in Alpha3ToAlpha2(raw)
    ensures k != "" && IsUpperCased(k)
    ensures Alpha3ToAlpha2(raw)[k] != "" && IsUpperCased(Alpha3ToAlpha2(raw)[k])
  {
    IndexByValue(raw, Alpha3Key, Alpha2Of, k);
  }

  /**
   * An entry with both codes maps its upper-cased alpha-3 code to its
   * upper-cased alpha-2 code, unless a later entry has the same alpha-3 code.
   */
  lemma Alpha3ToAlpha2Entry(raw: seq<RawCountry>, i: nat)
    requires i < |raw| && Truthy(raw[i].cca2) && Truthy(raw[i].cca3)
    requires forall j :: i < j < |raw| ==> Alpha3Key(raw[j]) != Alpha3Key(raw[i])
    ensures Upper(raw[i].cca3.value) in Alpha3ToAlpha2(raw)
    ensures Alpha3ToAlpha2(raw)[Upper(raw[i].cca3.value)] == Upper(raw[i].cca2.value)
  {
    IndexByLastWins(raw, Alpha3Key, Alpha2Of, i);
  }

  /** Exactly the entries with both codes give a key. */
  lemma Alpha3ToAlpha2Keys(raw: seq<RawCountry>, k: string)
    ensures k in Alpha3ToAlpha2(raw) <==>
      exists i :: 0 <= i < |raw| && Truthy(raw[i].cca2) && Truthy(raw[i].cca3) && Upper(raw[i].cca3.value) == k
  {
    IndexByKeys(raw, Alpha3Key, Alpha2Of, k);
    if k in Alpha3ToAlpha2(raw) {
      var i :| 0 <= i < |raw| && Alpha3Key(raw[i]) == Some(k);
      assert Truthy(raw[i].cca2) && Truthy(raw[i].cca3) && Upper(raw[i].cca3.value) == k;
    } else {
      forall i | 0 <= i < |raw| && Truthy(raw[i].cca2) && Truthy(raw[i].cca3)
        ensures Upper(raw[i].cca3.value) != k
      {
        assert Alpha3Key(raw[i]) == Some(Upper(raw[i].cca3.value));
      }
    }
  }

  // ---------------------------------------------------------------------
  // `build_country_meta`
  // ---------------------------------------------------------------------

  /** `alpha3_to_alpha2.get(b.upper(), b.upper())` */
  function BorderCode(b: string, alpha3ToAlpha2: map<string, string>): string {
    var u := Upper(b);
    if u in alpha3ToAlpha2 then alpha3ToAlpha2[u] else u
  }

  /** The list comprehension over `c.get("borders") or []`: one code per neighbour, in order. */
  function Borders(c: RawCountry, alpha3ToAlpha2: map<string, string>): (bs: seq<string>)
    ensures |bs| == |c.borders.GetOr([])|
    ensures forall i :: 0 <= i < |bs| ==> bs[i] == BorderCode(c.borders.GetOr([])[i], alpha3ToAlpha2)
  {
    var borders := c.borders.GetOr([]);
    seq(|borders|, i requires 0 <= i < |borders| => BorderCode(borders[i], alpha3ToAlpha2))
  }

  /**
   * With the map the generator builds, every neighbour is written upper-cased:
   * a known alpha-3 code becomes its alpha-2 code and an unknown one stays as
   * it was, upper-cased.
   */
  lemma BordersUpperCased(raw: seq<RawCountry>, c: RawCountry)
    ensures forall i :: 0 <= i < |Borders(c, Alpha3ToAlpha2(raw))| ==>
      IsUpperCased(Borders(c, Alpha3ToAlpha2(raw))[i])
  {
    var alpha := Alpha3ToAlpha2(raw);
    var borders := c.borders.GetOr([]);
    forall i | 0 <= i < |borders|
      ensures IsUpperCased(BorderCode(borders[i], alpha))
    {
      var u := Upper(borders[i]);
      if u in alpha {
        Alpha3ToAlpha2UpperCased(raw, u);
      }
    }
  }

  /** The neighbour written for an alpha-3 code known to the map is its alpha-2 code. */
  lemma BorderOfKnownCode(raw: seq<RawCountry>, i: nat, b: string)
    requires i < |raw| && Truthy(raw[i].cca2) && Truthy(raw[i].cca3)
    requires forall j :: i < j < |raw| ==> Alpha3Key(raw[j]) != Alpha3Key(raw[i])
    requires Upper(b) == Upper(raw[i].cca3.value)
    ensures BorderCode(b, Alpha3ToAlpha2(raw)) == Upper(raw[i].cca2.value)
  {
    Alpha3ToAlpha2Entry(raw, i);
  }

  /**
   * The flag object for an upper-cased code: an emoji exactly when the code
   * has two characters with regional indicators, a code rendering exactly
   * when there is an emoji, which reads back as that emoji, and the flagcdn
   * address ending in the lower-cased code.
   */
  function FlagOf(code: string): (f: GeneratedFlag)
    ensures f.emoji.Some? <==> |code| == 2 && HasIndicator(code[0]) && HasIndicator(code[1])
    ensures f.emojiUnicode.Some? <==> f.emoji.Some?
    ensures f.emoji.Some? ==> ParseUnicodeCodes(f.emojiUnicode.value) == f.emoji
    ensures StartsWith(f.svg, FlagCdn) && f.svg[|FlagCdn|..] == Lower(code) + ".svg"
  {
    var emoji := CountryCodeToEmoji(Some(code));
    var f := GeneratedFlag(emoji, EmojiToUnicodeCodes(emoji), FlagSvgUrl(code));
    if emoji.Some? then
      UnicodeCodesRoundTrip(emoji.value);
      f
    else f
  }

  /** The entry written for `c`, whose upper-cased code is `code`. */
  function EntryOf(c: RawCountry, code: string, alpha3ToAlpha2: map<string, string>): GeneratedMeta {
    GeneratedMeta(CountryName(c, code), CallingCode(c), FirstCapital(c), Borders(c, alpha3ToAlpha2), FlagOf(code))
  }

  /** The entry of `c` under its own upper-cased code. */
  function EntryOfCountry(c: RawCountry, alpha3ToAlpha2: map<string, string>): GeneratedMeta {
    EntryOf(c, Upper(c.cca2.GetOr("")), alpha3ToAlpha2)
  }

  /** The dictionary `build_country_meta` returns. */
  function CountryMeta(raw: seq<RawCountry>, alpha3ToAlpha2: map<string, string>): map<string, GeneratedMeta> {
    IndexBy(raw, CodeKey, c => EntryOfCountry(c, alpha3ToAlpha2))
  }

  /** `build_country_meta(raw_countries, alpha3_to_alpha2)`: the loop over the entries. */
  method BuildCountryMeta(raw: seq<RawCountry>, alpha3ToAlpha2: map<string, string>)
    returns (meta: map<string, GeneratedMeta>)
    ensures meta == CountryMeta(raw, alpha3ToAlpha2)
  {
    meta := map[];
    for i := 0 to |raw|
      invariant meta == CountryMeta(raw[..i], alpha3ToAlpha2)
    {
      var c := raw[i];
      assert raw[..i + 1][..i] == raw[..i];
      var cca2 := c.cca2;
      if !Truthy(cca2) {
        continue;
      }
      var code := Upper(cca2.value);
      var name := CountryName(c, code);
      var capital := FirstCapital(c);
      var callingCode := CallingCode(c);
      var borders := Borders(c, alpha3ToAlpha2);
      var emoji := CountryCodeToEmoji(Some(code));
      var emojiUnicode := EmojiToUnicodeCodes(emoji);
      var flag := GeneratedFlag(emoji, emojiUnicode, FlagSvgUrl(code));
      meta := meta[code := GeneratedMeta(name, callingCode, capital, borders, flag)];
    }
    assert raw[..|raw|] == raw;
  }

  /** The keys are the upper-cased non-empty codes of the entries, and nothing else. */
  lemma CountryMetaKeys(raw: seq<RawCountry>, alpha3ToAlpha2: map<string, string>, k: string)
    ensures k in CountryMeta(raw, alpha3ToAlpha2) <==>
      exists i :: 0 <= i < |raw| && Truthy(raw[i].cca2) && Upper(raw[i].cca2.value) == k
    ensures k in CountryMeta(raw, alpha3ToAlpha2) ==> k != "" && IsUpperCased(k)
  {
    IndexByKeys(raw, CodeKey, c => EntryOfCountry(c, alpha3ToAlpha2), k);
    if k in CountryMeta(raw, alpha3ToAlpha2) {
      var i :| 0 <= i < |raw| && CodeKey(raw[i]) == Some(k);
      assert Truthy(raw[i].cca2) && Upper(raw[i].cca2.value) == k;
    } else {
      forall i | 0 <= i < |raw| && Truthy(raw[i].cca2)
        ensures Upper(raw[i].cca2.value) != k
      {
        assert CodeKey(raw[i]) == Some(Upper(raw[i].cca2.value));
      }
    }
  }

  /**
   * The entry under a code is built from the last entry with that code: its
   * name falls back to the code, and its flag is the code's.
   */
  lemma CountryMetaEntry(raw: seq<RawCountry>, alpha3ToAlpha2: map<string, string>, i: nat)
    requires i < |raw| && Truthy(raw[i].cca2)
    requires forall j :: i < j < |raw| ==> CodeKey(raw[j]) != CodeKey(raw[i])
    ensures var code := Upper(raw[i].cca2.value);
      && code in CountryMeta(raw, alpha3ToAlpha2)
      && CountryMeta(raw, alpha3ToAlpha2)[code] == EntryOf(raw[i], code, alpha3ToAlpha2)
      && CountryMeta(raw, alpha3ToAlpha2)[code].name != ""
  {
    IndexByLastWins(raw, CodeKey, c => EntryOfCountry(c, alpha3ToAlpha2), i);
  }

  /**
   * For a two-letter code the generated emoji exists, and reads back as the
   * code it is stored under.
   */
  lemma GeneratedEmojiReadsBack(raw: seq<RawCountry>, alpha3ToAlpha2: map<string, string>, k: string)
    requires k in CountryMeta(raw, alpha3ToAlpha2)
    requires |k| == 2 && IsAsciiLetter(k[0]) && IsAsciiLetter(k[1])
    ensures CountryMeta(raw, alpha3ToAlpha2)[k].flag.emoji.Some?
    ensures EmojiToCountryCode(CountryMeta(raw, alpha3ToAlpha2)[k].flag.emoji.value) == Some(k)
  {
    var f := c => EntryOfCountry(c, alpha3ToAlpha2);
    IndexByValue(raw, CodeKey, f, k);
    var i :| 0 <= i < |raw| && CodeKey(raw[i]) == Some(k) && IndexBy(raw, CodeKey, f)[k] == f(raw[i]);
    assert CountryMeta(raw, alpha3ToAlpha2)[k].flag.emoji == CountryCodeToEmoji(Some(k));
    assert IsUpperCased(k);
    UpperOfUpperCased(k);
    EmojiRoundTrip(k);
  }

  /** How the lookup reads a generated entry back from the JSON file. */
  function AsStored(e: GeneratedMeta): StoredMeta {
    StoredMeta(e.callingCode, e.capital, Some(e.borders),
      Some(StoredFlag(e.flag.emoji, e.flag.emojiUnicode, Some(e.flag.svg), None)))
  }

  /**
   * The lookup's fallbacks agree with the generator: for an entry written
   * under `code`, the `flag` object the lookup reports is the written one,
   * whether or not the emoji could be computed.
   */
  lemma LookupFlagMatchesGenerated(raw: seq<RawCountry>, alpha3ToAlpha2: map<string, string>, code: string)
    requires code in CountryMeta(raw, alpha3ToAlpha2)
    ensures var e := CountryMeta(raw, alpha3ToAlpha2)[code];
      NetReconGeoip.FlagFor(code, AsStored(e).flag)
        == NetReconGeoip.FlagInfo(Some(e.flag.svg), e.flag.emoji, e.flag.emojiUnicode)
  {
    var f := c => EntryOfCountry(c, alpha3ToAlpha2);
    IndexByValue(raw, CodeKey, f, code);
    var i :| 0 <= i < |raw| && CodeKey(raw[i]) == Some(code) && IndexBy(raw, CodeKey, f)[code] == f(raw[i]);
    assert CountryMeta(raw, alpha3ToAlpha2)[code].flag == FlagOf(code);
  }
}
