/**
 * `_build_timezone_info`: the time-zone object of the resolver's answer, and
 * the `±HH:MM` rendering of a UTC offset given in seconds.
 */
module Timezone {
  import opened Wrappers
  import Text
  import opened Numerals
  import opened Externals

  datatype TimezoneInfo =
    /** The zone could not be loaded: only its identifier is reported. */
    | TimezoneIdOnly(id: string)
    | TimezoneFull(
        id: string,
        abbreviation: Option<string>,
        isDst: bool,
        offset: int,
        utc: string,
        currentTime: string)

  /** `sign`, then `hours` and `minutes` as two-digit numbers separated by a colon. */
  function Rendering(sign: char, hours: nat, minutes: nat): string {
    [sign] + TwoDigits(hours) + ":" + TwoDigits(minutes)
  }

  /**
   * `f"{sign}{hours:02d}:{minutes:02d}"` with the sign of the offset (`+` for
   * zero), hours `abs(offset) // 3600` and minutes `(abs(offset) % 3600) // 60`.
   */
  function FormatUtcOffset(offset: int): string {
    var a := Magnitude(offset);
    Rendering(SignOf(offset), a / 3600, (a % 3600) / 60)
  }

  /** `+` for non-negative offsets, `-` for negative ones. */
  function SignOf(offset: int): char {
    if offset >= 0 then '+' else '-'
  }

  function Magnitude(offset: int): nat {
    if offset >= 0 then offset else -offset
  }

  /** Numbers below 100 take exactly two digits. */
  lemma TwoDigitsBelowHundred(n: nat)
    requires n < 100
    ensures |TwoDigits(n)| == 2
  {
    if n >= 10 {
      DivStep(n, 10);
      assert |ToBase(n / 10, 10)| == 1;
    }
  }

  /** A single digit is written with a leading zero. */
  lemma TwoDigitsOfDigit(n: nat)
    requires n < 10
    ensures TwoDigits(n) == ['0', DigitChar(n)]
  {
    assert ToBase(n, 10) == [DigitChar(n)];
    var z := ZeroPad([DigitChar(n)], 2);
    assert z == ['0'] + ZeroPad([DigitChar(n)], 1);
    assert ZeroPad([DigitChar(n)], 1) == [DigitChar(n)];
  }

  /** Hours and minutes below ten are each written with a leading zero. */
  lemma RenderingOfDigits(sign: char, hours: nat, minutes: nat)
    requires hours < 10 && minutes < 10
    ensures Rendering(sign, hours, minutes) == [sign, '0', DigitChar(hours), ':', '0', DigitChar(minutes)]
  {
    TwoDigitsOfDigit(hours);
    TwoDigitsOfDigit(minutes);
  }

  /** A zero offset is written `+00:00`. */
  lemma FormatZeroOffset()
    ensures FormatUtcOffset(0) == "+00:00"
  {
    assert Magnitude(0) / 3600 == 0 && (Magnitude(0) % 3600) / 60 == 0;
    RenderingOfDigits('+', 0, 0);
    assert DigitChar(0) == '0';
  }

  /** An offset of six hours west of UTC is written `-06:00`. */
  lemma FormatSixHoursWest()
    ensures FormatUtcOffset(-21600) == "-06:00"
  {
    assert Magnitude(-21600) / 3600 == 6 && (Magnitude(-21600) % 3600) / 60 == 0;
    RenderingOfDigits('-', 6, 0);
  }

  /** Reads a `±H…H:MM` offset back to seconds. */
  function ParseUtcOffset(s: string): Option<int> {
    if && |s| >= 6 && (s[0] == '+' || s[0] == '-') && s[|s| - 3] == ':'
       && AllDigitsOf(s[1..|s| - 3], 10) && AllDigitsOf(s[|s| - 2..], 10)
    then
      var magnitude := ValueInBase(s[1..|s| - 3], 10) * 3600 + ValueInBase(s[|s| - 2..], 10) * 60;
      Some(if s[0] == '+' then magnitude else -magnitude)
    else None
  }

  /** `offset` truncated toward zero to a whole number of minutes. */
  function TruncateToMinutes(offset: int): int {
    var whole := (Magnitude(offset) / 60) * 60;
    if offset >= 0 then whole else -whole
  }

  /** The truncation is a multiple of 60 on the offset's side of zero, less than a minute nearer to zero. */
  lemma TruncateToMinutesBounds(offset: int)
    ensures TruncateToMinutes(offset) % 60 == 0
    ensures offset >= 0 ==> 0 <= TruncateToMinutes(offset) <= offset < TruncateToMinutes(offset) + 60
    ensures offset < 0 ==> TruncateToMinutes(offset) - 60 < offset <= TruncateToMinutes(offset) <= 0
    ensures offset % 60 == 0 ==> TruncateToMinutes(offset) == offset
  {
    var a := if offset >= 0 then offset else -offset;
    var q := a / 60;
    assert a == q * 60 + a % 60;
    if offset < 0 {
      assert -(q * 60) == (-q) * 60;
      if offset % 60 == 0 {
        assert offset == (offset / 60) * 60;
        assert a == (-(offset / 60)) * 60;
      }
    }
  }

  /** Whole hours and remaining whole minutes of `a` seconds are its whole minutes. */
  lemma MinuteTruncation(a: nat)
    ensures (a % 3600) / 60 < 60
    ensures (a / 3600) * 3600 + ((a % 3600) / 60) * 60 == (a / 60) * 60
  {
    var h, r := a / 3600, a % 3600;
    var m := r / 60;
    assert a == h * 3600 + r && 0 <= r < 3600;
    assert r == m * 60 + r % 60;
    assert a == (h * 60 + m) * 60 + r % 60;
    assert a / 60 == h * 60 + m;
  }

  /** Reads back digit strings `hh` worth `h` and `mm` worth `m` after sign `sign`. */
  lemma ParseDigits(sign: char, hh: string, mm: string, h: nat, m: nat)
    requires sign == '+' || sign == '-'
    requires |hh| >= 2 && AllDigitsOf(hh, 10) && ValueInBase(hh, 10) == h
    requires |mm| == 2 && AllDigitsOf(mm, 10) && ValueInBase(mm, 10) == m
    ensures ParseUtcOffset([sign] + hh + ":" + mm)
      == Some(if sign == '+' then h * 3600 + m * 60 else -(h * 3600 + m * 60))
  {
    var s := [sign] + hh + ":" + mm;
    assert |s| == |hh| + 4;
    assert s[1..|s| - 3] == hh;
    assert s[|s| - 2..] == mm;
    assert s[|s| - 3] == ':';
  }

  /** A rendering with fewer than 60 minutes reads back as its signed number of seconds. */
  lemma ParseRendering(sign: char, h: nat, m: nat)
    requires sign == '+' || sign == '-'
    requires m < 60
    ensures Rendering(sign, h, m)[0] == sign
    ensures ParseUtcOffset(Rendering(sign, h, m))
      == Some(if sign == '+' then h * 3600 + m * 60 else -(h * 3600 + m * 60))
  {
    TwoDigitsBelowHundred(m);
    ParseDigits(sign, TwoDigits(h), TwoDigits(m), h, m);
  }

  /**
   * The rendering starts with `+` exactly for non-negative offsets, and it
   * denotes the offset truncated toward zero to whole minutes.
   */
  lemma FormatUtcOffsetRoundTrip(offset: int)
    ensures FormatUtcOffset(offset)[0] == '+' <==> offset >= 0
    ensures ParseUtcOffset(FormatUtcOffset(offset)).Some?
    ensures ParseUtcOffset(FormatUtcOffset(offset)).value == TruncateToMinutes(offset)
  {
    var a := Magnitude(offset);
    MinuteTruncation(a);
    ParseRendering(SignOf(offset), a / 3600, (a % 3600) / 60);
  }

  /** Offsets in whole minutes, as real time zones have, survive the rendering exactly. */
  lemma WholeMinuteOffsetRoundTrip(offset: int)
    requires offset % 60 == 0
    ensures ParseUtcOffset(FormatUtcOffset(offset)) == Some(offset)
  {
    FormatUtcOffsetRoundTrip(offset);
    TruncateToMinutesBounds(offset);
  }

  /**
   * `_build_timezone_info(tz_name)`: nothing for a missing or empty name, only
   * the identifier when the zone cannot be loaded, otherwise the full object
   * from the zone's current instant. A missing UTC offset counts as zero, and
   * DST is active exactly when a non-zero DST offset is reported.
   */
  function BuildTimezoneInfo(tzName: Option<string>, zone: string -> ZoneAnswer): (r: Option<TimezoneInfo>)
    ensures r.None? <==> !Text.Truthy(tzName)
    ensures r.Some? ==> r.value.id == tzName.value
    ensures r.Some? ==> (r.value.TimezoneIdOnly? <==> zone(tzName.value).ZoneUnloadable?)
    ensures r.Some? && r.value.TimezoneFull? ==>
      var now := zone(tzName.value);
      && r.value.offset == now.utcOffset.GetOr(0)
      && r.value.isDst == (now.dstOffset.Some? && now.dstOffset.value != 0)
      && r.value.utc == FormatUtcOffset(r.value.offset)
      && r.value.abbreviation == now.abbreviation
      && r.value.currentTime == now.isoNow
  {
    if !Text.Truthy(tzName) then None
    else
      var name := tzName.value;
      match zone(name)
      case ZoneUnloadable => Some(TimezoneIdOnly(name))
      case ZoneLoaded(abbreviation, utcOffset, dstOffset, isoNow) =>
        var offset := utcOffset.GetOr(0);
        var isDst := dstOffset.Some? && dstOffset.value != 0;
        Some(TimezoneFull(name, abbreviation, isDst, offset, FormatUtcOffset(offset), isoNow))
  }
}
