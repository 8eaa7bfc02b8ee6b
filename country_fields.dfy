/**
 * The fields both country-metadata generators read from a RestCountries
 * entry, and the dictionary both of them build by walking the entries in
 * order: every entry that has a key writes its value under that key, so a
 * later entry with the same key replaces an earlier one.
 */
module CountryFields {
  import opened Wrappers
  import opened Text

  /** The `name` object of an entry as `.get` reads it. */
  datatype RawName = RawName(common: Option<string>, official: Option<string>)

  /** The `idd` object of an entry as `.get` reads it. */
  datatype RawIdd = RawIdd(root: Option<string>, suffixes: Option<seq<string>>)

  /**
   * One RestCountries entry as `.get` reads it: a key that is missing or
   * `null` is `None`, and an object or a list that is missing, `null` or empty
   * may be `None` as well, since `or {}` and `or []` treat them alike.
   */
  datatype RawCountry = RawCountry(
    cca2: Option<string>,
    cca3: Option<string>,
    name: Option<RawName>,
    capital: Option<seq<string>>,
    idd: Option<RawIdd>,
    borders: Option<seq<string>>)

  /**
   * `name_data.get("common") or name_data.get("official") or code`: the
   * common name, else the official name, else the code; a non-empty code
   * always gives a non-empty name.
   */
  function CountryName(c: RawCountry, code: string): (n: string)
    ensures code != "" ==> n != ""
    ensures c.name.Some? && Truthy(c.name.value.common) ==> n == c.name.value.common.value
    ensures c.name.Some? && !Truthy(c.name.value.common) && Truthy(c.name.value.official) ==>
      n == c.name.value.official.value
    ensures c.name.None? || (!Truthy(c.name.value.common) && !Truthy(c.name.value.official)) ==>
      n == code
  {
    var names := c.name.GetOr(RawName(None, None));
    if Truthy(names.common) then names.common.value
    else if Truthy(names.official) then names.official.value
    else code
  }

  /** `capitals[0] if capitals else None` over `c.get("capital") or []`. */
  function FirstCapital(c: RawCountry): (cap: Option<string>)
    ensures cap.Some? <==> c.capital.Some? && c.capital.value != []
    ensures cap.Some? ==> cap.value == c.capital.value[0]
  {
    var capitals := c.capital.GetOr([]);
    if capitals != [] then Some(capitals[0]) else None
  }

  /**
   * The calling code: the root followed by the first suffix when both are
   * there, the root alone when there is no suffix, and nothing without a
   * (non-empty) root. A calling code always starts with its root.
   */
  function CallingCode(c: RawCountry): (code: Option<string>)
    ensures var idd := c.idd.GetOr(RawIdd(None, None));
      && (code.Some? <==> Truthy(idd.root))
      && (code.Some? ==> StartsWith(code.value, idd.root.value))
      && (code.Some? && idd.suffixes.Some? && idd.suffixes.value != [] ==>
            code.value == idd.root.value + idd.suffixes.value[0])
      && (code.Some? && (idd.suffixes.None? || idd.suffixes.value == []) ==>
            code.value == idd.root.value)
  {
    var idd := c.idd.GetOr(RawIdd(None, None));
    var suffixes := idd.suffixes.GetOr([]);
    if Truthy(idd.root) && suffixes != [] then
      assert (idd.root.value + suffixes[0])[..|idd.root.value|] == idd.root.value;
      Some(idd.root.value + suffixes[0])
    else if Truthy(idd.root) then
      assert idd.root.value[..|idd.root.value|] == idd.root.value;
      Some(idd.root.value)
    else None
  }

  const FlagCdn := "https://flagcdn.com/"

  /** `f"https://flagcdn.com/{cc_lower}.svg"`: the CDN, then the lower-cased code and `.svg`. */
  function FlagSvgUrl(code: string): (url: string)
    ensures StartsWith(url, FlagCdn)
    ensures url[|FlagCdn|..] == Lower(code) + ".svg"
  {
    assert (FlagCdn + Lower(code) + ".svg")[..|FlagCdn|] == FlagCdn;
    FlagCdn + Lower(code) + ".svg"
  }

  /** `f"https://flagcdn.com/w320/{cc_lower}.png"`: the CDN, the 320-pixel folder, then the lower-cased code and `.png`. */
  function FlagPngUrl(code: string): (url: string)
    ensures StartsWith(url, FlagCdn)
    ensures url[|FlagCdn|..] == "w320/" + Lower(code) + ".png"
  {
    assert (FlagCdn + "w320/" + Lower(code) + ".png")[..|FlagCdn|] == FlagCdn;
    FlagCdn + "w320/" + Lower(code) + ".png"
  }

  /** `p + x + s == p + y + s` only when `x == y`. */
  lemma CancelAround(p: string, x: string, y: string, s: string)
    requires p + x + s == p + y + s
    ensures x == y
  {
    var a, b := p + x + s, p + y + s;
    assert |x| == |y|;
    assert a[|p|..|p| + |x|] == x;
    assert b[|p|..|p| + |y|] == y;
  }

  /** Two codes share their flag image exactly when they agree up to case. */
  lemma FlagUrlsIgnoreCase(a: string, b: string)
    ensures FlagSvgUrl(a) == FlagSvgUrl(b) <==> Lower(a) == Lower(b)
    ensures FlagPngUrl(a) == FlagPngUrl(b) <==> Lower(a) == Lower(b)
  {
    if FlagSvgUrl(a) == FlagSvgUrl(b) {
      CancelAround(FlagCdn, Lower(a), Lower(b), ".svg");
    }
    if FlagPngUrl(a) == FlagPngUrl(b) {
      assert FlagCdn + "w320/" + Lower(a) + ".png" == FlagCdn + "w320/" + Lower(b) + ".png";
      CancelAround(FlagCdn + "w320/", Lower(a), Lower(b), ".png");
    }
  }

  /**
   * The dictionary built by a loop over `raw` that stores `value(c)` under
   * `key(c)` for every entry `c` that has a key, skipping the others.
   */
  function IndexBy<T>(raw: seq<RawCountry>, key: RawCountry -> Option<string>, value: RawCountry -> T): map<string, T>
  {
    if raw == [] then map[]
    else
      var m := IndexBy(raw[..|raw| - 1], key, value);
      var c := raw[|raw| - 1];
      if key(c).Some? then m[key(c).value := value(c)] else m
  }

  /** The keys are exactly the keys of the entries. */
  lemma {:induction false} IndexByKeys<T>(raw: seq<RawCountry>, key: RawCountry -> Option<string>, value: RawCountry -> T, k: string)
    ensures k in IndexBy(raw, key, value) <==> exists i :: 0 <= i < |raw| && key(raw[i]) == Some(k)
  {
    if raw != [] {
      var n := |raw|;
      var front := raw[..n - 1];
      IndexByKeys(front, key, value, k);
      if k in IndexBy(raw, key, value) {
        if key(raw[n - 1]) != Some(k) {
          var i :| 0 <= i < |front| && key(front[i]) == Some(k);
          assert raw[i] == front[i];
        }
      } else {
        forall i | 0 <= i < n
          ensures key(raw[i]) != Some(k)
        {
          if i < n - 1 {
            assert raw[i] == front[i];
          }
        }
      }
    }
  }

  /**
   * Last one wins: the value under a key is that of the last entry with the
   * key.
   */
  lemma {:induction false} IndexByLastWins<T>(raw: seq<RawCountry>, key: RawCountry -> Option<string>, value: RawCountry -> T, i: nat)
    requires i < |raw| && key(raw[i]).Some?
    requires forall j :: i < j < |raw| ==> key(raw[j]) != key(raw[i])
    ensures key(raw[i]).value in IndexBy(raw, key, value)
    ensures IndexBy(raw, key, value)[key(raw[i]).value] == value(raw[i])
  {
    var n := |raw|;
    if i < n - 1 {
      var front := raw[..n - 1];
      assert front[i] == raw[i];
      assert forall j :: i < j < |front| ==> front[j] == raw[j];
      IndexByLastWins(front, key, value, i);
    }
  }

  /**
   * Every value was stored by an entry with its key, and by the last such
   * entry.
   */
  lemma {:induction false} IndexByValue<T>(raw: seq<RawCountry>, key: RawCountry -> Option<string>, value: RawCountry -> T, k: string)
    requires k in IndexBy(raw, key, value)
    ensures exists i ::
      && 0 <= i < |raw|
      && key(raw[i]) == Some(k)
      && IndexBy(raw, key, value)[k] == value(raw[i])
      && (forall j :: i < j < |raw| ==> key(raw[j]) != Some(k))
  {
    var n := |raw|;
    var front := raw[..n - 1];
    if key(raw[n - 1]) == Some(k) {
      assert IndexBy(raw, key, value)[k] == value(raw[n - 1]);
    } else {
      assert IndexBy(raw, key, value)[k] == IndexBy(front, key, value)[k];
      IndexByValue(front, key, value, k);
      var i :|
        && 0 <= i < |front|
        && key(front[i]) == Some(k)
        && IndexBy(front, key, value)[k] == value(front[i])
        && (forall j :: i < j < |front| ==> key(front[j]) != Some(k));
      assert raw[i] == front[i];
      assert forall j :: i < j < n - 1 ==> raw[j] == front[j];
    }
  }

  /** `c.get("cca2")`, upper-cased, for an entry whose code is non-empty. */
  function CodeKey(c: RawCountry): (k: Option<string>)
    ensures k.Some? <==> Truthy(c.cca2)
    ensures k.Some? ==> k.value == Upper(c.cca2.value) && k.value != ""
  {
    if Truthy(c.cca2) then Some(Upper(c.cca2.value)) else None
  }
}
