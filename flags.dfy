/**
 * Flag emoji for ISO 3166-1 alpha-2 country codes and their `U+XXXX`
 * rendering. The same two helpers appear in the resolver and in the
 * country-metadata generator; both copies behave as modelled here.
 */
module Flags {
  import opened Wrappers
  import opened Text
  import opened Numerals

  /** Code point of REGIONAL INDICATOR SYMBOL LETTER A. */
  const RegionalIndicatorA: int := 0x1F1E6

  /** The largest code point `chr` accepts. */
  const MaxCodePoint: int := 0x10FFFF

  /** `base + (ord(c.upper()) - ord("A"))` */
  function IndicatorCode(c: char): int {
    RegionalIndicatorA + (UpperChar(c) as int - 'A' as int)
  }

  /** Whether `chr(IndicatorCode(c))` succeeds. */
  predicate HasIndicator(c: char) {
    IndicatorCode(c) <= MaxCodePoint
  }

  /**
   * `_country_code_to_emoji`: two regional-indicator characters for a
   * two-character code. Anything that is not exactly two characters long, and a
   * character whose shifted code point is beyond `chr`'s range (the `except`
   * branch), give `None`.
   */
  function CountryCodeToEmoji(cc: Option<string>): (r: Option<string>)
    ensures r.Some? <==> cc.Some? && |cc.value| == 2 && HasIndicator(cc.value[0]) && HasIndicator(cc.value[1])
    ensures r.Some? ==> |r.value| == 2 && forall i :: 0 <= i < 2 ==> r.value[i] as int == IndicatorCode(cc.value[i])
  {
    if cc.None? || |cc.value| != 2 then None
    else
      var first, second := IndicatorCode(cc.value[0]), IndicatorCode(cc.value[1]);
      if first <= MaxCodePoint && second <= MaxCodePoint then Some([first as char, second as char])
      else None
  }

  /** Reads a flag emoji back to the upper-case letter pair it stands for. */
  function EmojiToCountryCode(e: string): Option<string> {
    if |e| == 2
      && RegionalIndicatorA <= e[0] as int < RegionalIndicatorA + 26
      && RegionalIndicatorA <= e[1] as int < RegionalIndicatorA + 26
    then Some([(e[0] as int - RegionalIndicatorA + 'A' as int) as char,
               (e[1] as int - RegionalIndicatorA + 'A' as int) as char])
    else None
  }

  predicate IsAsciiLetter(c: char) { IsAsciiUpper(c) || IsAsciiLower(c) }

  /** Every two-letter code has a flag, and the flag reads back as the upper-cased code. */
  lemma EmojiRoundTrip(cc: string)
    requires |cc| == 2 && IsAsciiLetter(cc[0]) && IsAsciiLetter(cc[1])
    ensures CountryCodeToEmoji(Some(cc)).Some?
    ensures EmojiToCountryCode(CountryCodeToEmoji(Some(cc)).value) == Some(Upper(cc))
  {
    var e := CountryCodeToEmoji(Some(cc)).value;
    assert e[0] as int == IndicatorCode(cc[0]) && e[1] as int == IndicatorCode(cc[1]);
    assert Upper(cc) == [UpperChar(cc[0]), UpperChar(cc[1])];
  }

  /** `f"U+{ord(ch):04X}"` */
  function CodeToken(c: char): (t: string)
    ensures ' ' !in t
  {
    var digits := FourHexDigits(c as int);
    assert forall i :: 0 <= i < |digits| ==> IsDigitOf(digits[i], 16);
    "U+" + digits
  }

  function CodeTokens(e: string): (ts: seq<string>)
    ensures |ts| == |e|
    ensures forall i :: 0 <= i < |e| ==> ts[i] == CodeToken(e[i])
  {
    seq(|e|, i requires 0 <= i < |e| => CodeToken(e[i]))
  }

  /** `_emoji_to_unicode_codes`: `None` for a missing or empty string. */
  function EmojiToUnicodeCodes(e: Option<string>): (r: Option<string>)
    ensures r.None? <==> !Truthy(e)
  {
    if !Truthy(e) then None else Some(Join(CodeTokens(e.value), ' '))
  }

  function IsScalarValue(v: int): bool {
    (0 <= v < 0xD800) || (0xE000 <= v <= MaxCodePoint)
  }

  /** Reads one `U+XXXX` token back to its character. */
  function ParseCodeToken(t: string): Option<char> {
    if |t| >= 3 && t[..2] == "U+" && AllDigitsOf(t[2..], 16) && IsScalarValue(ValueInBase(t[2..], 16))
    then Some(ValueInBase(t[2..], 16) as char)
    else None
  }

  function ParseCodeTokens(ts: seq<string>): Option<string> {
    if ts == [] then Some("")
    else
      var c, rest := ParseCodeToken(ts[0]), ParseCodeTokens(ts[1..]);
      if c.Some? && rest.Some? then Some([c.value] + rest.value) else None
  }

  /** Reads the space-separated rendering of `_emoji_to_unicode_codes` back to the string. */
  function ParseUnicodeCodes(s: string): Option<string> {
    ParseCodeTokens(Split(s, ' '))
  }

  /** Each token reads back as its character. */
  lemma CodeTokenRoundTrip(c: char)
    ensures ParseCodeToken(CodeToken(c)).Some?
    ensures ParseCodeToken(CodeToken(c)).value == c
  {
    var t := CodeToken(c);
    assert t[2..] == FourHexDigits(c as int);
    assert t[..2] == "U+";
  }

  lemma {:induction false} ParseCodeTokensRoundTrip(e: string)
    ensures ParseCodeTokens(CodeTokens(e)).Some?
    ensures ParseCodeTokens(CodeTokens(e)).value == e
  {
    if e != [] {
      var ts := CodeTokens(e);
      CodeTokenRoundTrip(e[0]);
      assert ts[1..] == CodeTokens(e[1..]);
      ParseCodeTokensRoundTrip(e[1..]);
      assert [e[0]] + e[1..] == e;
    }
  }

  /**
   * The rendering has one space-separated token per character, the token of
   * character `e[i]` being `U+` and at least four upper-case hexadecimal digits
   * of its code point; reading it back gives the original string.
   */
  lemma UnicodeCodesRoundTrip(e: string)
    requires e != ""
    ensures Split(EmojiToUnicodeCodes(Some(e)).value, ' ') == CodeTokens(e)
    ensures ParseUnicodeCodes(EmojiToUnicodeCodes(Some(e)).value).Some?
    ensures ParseUnicodeCodes(EmojiToUnicodeCodes(Some(e)).value).value == e
  {
    SplitJoin(CodeTokens(e), ' ');
    ParseCodeTokensRoundTrip(e);
  }
}
