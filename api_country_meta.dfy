/**
 * `api/generate_country_meta.py`: the generator of the API service's
 * country-metadata file. One entry per alpha-2 code, with the name, the
 * capital, the calling code, the neighbours exactly as RestCountries gives
 * them (alpha-3 codes) and the flagcdn SVG and PNG addresses; no emoji.
 */
module ApiCountryMeta {
  import opened Wrappers
  import opened Text
  import opened Externals
  import opened CountryFields

  /** The `flag` object the generator writes; its `emoji` is always `None`. */
  datatype GeneratedFlag = GeneratedFlag(emoji: Option<string>, svg: string, png: string)

  /** One value of the generated file. */
  datatype GeneratedMeta = GeneratedMeta(
    name: string,
    callingCode: Option<string>,
    capital: Option<string>,
    borders: seq<string>,
    flag: GeneratedFlag)

  /**
   * The entry written for `c`, whose upper-cased code is `code`: the
   * neighbours are copied unchanged, `[]` when there are none; the flag has
   * no emoji and the flagcdn SVG and PNG addresses of the lower-cased code;
   * a non-empty code always has a non-empty name.
   */
  function EntryOf(c: RawCountry, code: string): (e: GeneratedMeta)
    ensures e.borders == if c.borders.Some? then c.borders.value else []
    ensures e.flag.emoji.None?
    ensures StartsWith(e.flag.svg, FlagCdn) && e.flag.svg[|FlagCdn|..] == Lower(code) + ".svg"
    ensures StartsWith(e.flag.png, FlagCdn) && e.flag.png[|FlagCdn|..] == "w320/" + Lower(code) + ".png"
    ensures code != "" ==> e.name != ""
    ensures e.capital.Some? <==> c.capital.Some? && c.capital.value != []
    ensures e.name == CountryName(c, code) && e.capital == FirstCapital(c) && e.callingCode == CallingCode(c)
  {
    GeneratedMeta(CountryName(c, code), CallingCode(c), FirstCapital(c), c.borders.GetOr([]),
      GeneratedFlag(None, FlagSvgUrl(code), FlagPngUrl(code)))
  }

  /** The entry of `c` under its own upper-cased code. */
  function EntryOfCountry(c: RawCountry): GeneratedMeta {
    EntryOf(c, Upper(c.cca2.GetOr("")))
  }

  /** The dictionary `build_country_meta` returns. */
  function CountryMeta(raw: seq<RawCountry>): map<string, GeneratedMeta> {
    IndexBy(raw, CodeKey, EntryOfCountry)
  }

  /** `build_country_meta(raw_countries)`: the loop over the entries. */
  method BuildCountryMeta(raw: seq<RawCountry>) returns (meta: map<string, GeneratedMeta>)
    ensures meta == CountryMeta(raw)
  {
    meta := map[];
    for i := 0 to |raw|
      invariant meta == CountryMeta(raw[..i])
    {
      var c := raw[i];
      assert raw[..i + 1][..i] == raw[..i];
      var cca2 := c.cca2;
      if !Truthy(cca2) {
        continue;
      }
      var code := Upper(cca2.value);
      var name := CountryName(c, code);
      var capital := FirstCapital(c);
      var callingCode := CallingCode(c);
      var borders := c.borders.GetOr([]);
      var flag := GeneratedFlag(None, FlagSvgUrl(code), FlagPngUrl(code));
      meta := meta[code := GeneratedMeta(name, callingCode, capital, borders, flag)];
    }
    assert raw[..|raw|] == raw;
  }

  /** The keys are the upper-cased non-empty codes of the entries, and nothing else. */
  lemma CountryMetaKeys(raw: seq<RawCountry>, k: string)
    ensures k in CountryMeta(raw) <==>
      exists i :: 0 <= i < |raw| && Truthy(raw[i].cca2) && Upper(raw[i].cca2.value) == k
    ensures k in CountryMeta(raw) ==> k != "" && IsUpperCased(k)
  {
    IndexByKeys(raw, CodeKey, EntryOfCountry, k);
    if k in CountryMeta(raw) {
      var i :| 0 <= i < |raw| && CodeKey(raw[i]) == Some(k);
      assert Truthy(raw[i].cca2) && Upper(raw[i].cca2.value) == k;
    } else {
      forall i | 0 <= i < |raw| && Truthy(raw[i].cca2)
        ensures Upper(raw[i].cca2.value) != k
      {
        assert CodeKey(raw[i]) == Some(Upper(raw[i].cca2.value));
      }
    }
  }

  /**
   * One entry per code, and a later entry with the same upper-cased code
   * replaces an earlier one: the entry under a code is built from the last
   * entry with that code.
   */
  lemma CountryMetaLastWins(raw: seq<RawCountry>, i: nat)
    requires i < |raw| && Truthy(raw[i].cca2)
    requires forall j :: i < j < |raw| ==> CodeKey(raw[j]) != CodeKey(raw[i])
    ensures var code := Upper(raw[i].cca2.value);
      && code in CountryMeta(raw)
      && CountryMeta(raw)[code] == EntryOf(raw[i], code)
  {
    IndexByLastWins(raw, CodeKey, EntryOfCountry, i);
  }

  /** How the lookup reads a generated entry back from the JSON file. */
  function AsStored(e: GeneratedMeta): StoredMeta {
    StoredMeta(e.callingCode, e.capital, Some(e.borders),
      Some(StoredFlag(e.flag.emoji, None, Some(e.flag.svg), Some(e.flag.png))))
  }

  /**
   * The stored flag of every generated entry has no emoji and the SVG and PNG
   * addresses of the code it is stored under.
   */
  lemma StoredFlagOfCode(raw: seq<RawCountry>, code: string)
    requires code in CountryMeta(raw)
    ensures var s := AsStored(CountryMeta(raw)[code]);
      && s.flag.Some?
      && s.flag.value.emoji.None?
      && s.flag.value.svg == Some(FlagSvgUrl(code))
      && s.flag.value.png == Some(FlagPngUrl(code))
  {
    IndexByValue(raw, CodeKey, EntryOfCountry, code);
    var i :| 0 <= i < |raw| && CodeKey(raw[i]) == Some(code) && CountryMeta(raw)[code] == EntryOfCountry(raw[i]);
  }
}
