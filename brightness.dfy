/** The bridge's brightness byte. The remote's slider has 26 levels (0..25);
    levels 0..16 are sent as (16 - level) << 3 and levels 17..25 as
    (50 - level) << 3, clamped at 255. The decoder inverts this on the byte
    with its three zone bits cleared. Where the controller computes with
    floating point, the functions below give the values IEEE-754 double
    arithmetic produces for integer arguments. */
module Brightness {
  import opened Bits

  /** Math.max(0, Math.round(percent / 100 * 25)) for an integer percent of at
      most 100. In double arithmetic 58 / 100 * 25 is 14.499999999999998, so 58
      rounds down to 14; every other percent rounds to the nearest level, a
      tie (percent = 4 * level + 2) going up. */
  function Level(percent: int): (level: int)
    requires percent <= 100
    ensures 0 <= level <= 25
    ensures percent <= 0 ==> level == 0
    ensures percent >= 0 ==> 4 * level - 2 <= percent <= 4 * level + 2
    ensures percent >= 0 && percent != 58 ==> 4 * level - 2 <= percent < 4 * level + 2
    ensures percent == 58 ==> level == 14
  {
    if percent == 58 then 14
    else if percent + 2 < 0 then 0
    else (percent + 2) / 4
  }

  /** `_PercentToMilightBrightness`: the device code for a percentage. */
  function PercentToMilightBrightness(percent: int): (code: int)
    requires percent <= 100
    ensures 0 <= code <= 255
    ensures code == 255 || code % 8 == 0
  {
    var level := Level(percent);
    var flipped := (level - 16) * -1;
    var band := if flipped < 24 && flipped >= 0 then level * -1 + 16 else level * -1 + 50;
    var shifted := Shl3(band);
    if shifted > 255 then 255 else shifted
  }

  /** Math.ceil(x / 25 * 100) for the integers the decoder can reach, as double
      arithmetic evaluates it: 7 / 25 * 100 is 28.000000000000004 and
      14 / 25 * 100 is 56.00000000000001, so those two round up by one. */
  function CeilScale(x: int): (r: int)
    requires -8 <= x <= 25
    ensures x != 7 && x != 14 ==> r == 4 * x
    ensures x == 7 || x == 14 ==> r == 4 * x + 1
  {
    if x == 7 then 29 else if x == 14 then 57 else 4 * x
  }

  /** Math.max(0, Math.min(100, v)). */
  function Clamp(v: int): (r: int)
    ensures 0 <= r <= 100
    ensures 0 <= v <= 100 ==> r == v
    ensures v < 0 ==> r == 0
    ensures v > 100 ==> r == 100
  {
    if v < 0 then 0 else if v > 100 then 100 else v
  }

  /** `_MilightBrightnessToPercent` for a byte: codes strictly between 0xA0 and
      0xC8 are first snapped to 0xC8. */
  function MilightBrightnessToPercent(code: int): (percent: int)
    requires 0 <= code <= 255
    ensures 0 <= percent <= 100
  {
    var snapped := if code < 0xC8 && code > 0xA0 then 0xC8 else code;
    var level := Shr3(snapped);
    var band := if level < 25 then (level - 16) * -1 else (level - 50) * -1;
    Clamp(CeilScale(band))
  }

  /** The two bands of the encoding: levels 0..16 go to 128 down to 0 in steps
      of 8, levels 19..25 to 248 down to 200, and levels 17 and 18 overflow the
      byte and are clamped to 255. */
  lemma PercentBands(percent: int)
    requires percent <= 100
    ensures var level, code := Level(percent), PercentToMilightBrightness(percent);
      && (level <= 16 ==> code == 8 * (16 - level))
      && (level == 17 || level == 18 ==> code == 255)
      && (level >= 19 ==> code == 8 * (50 - level))
    ensures PercentToMilightBrightness(percent) == 255 <==> 66 <= percent <= 73
  {
    var level := Level(percent);
    var band := if level <= 16 then 16 - level else 50 - level;
    assert Shl3(band) == 8 * band;
  }

  /** Decoding an encoded percentage gives back four times its level, except
      that levels 7 and 14 come back one higher (the rounding of CeilScale) and
      levels 17 and 18 (66 to 73 percent) come back as 76 after clamping. So
      outside 66..73 the percentage comes back within -2..+3 points. */
  lemma BrightnessRoundTrip(percent: int)
    requires 0 <= percent <= 100
    ensures var level, back := Level(percent), MilightBrightnessToPercent(PercentToMilightBrightness(percent));
      && (level == 17 || level == 18 ==> back == 76)
      && (level != 17 && level != 18 ==> back == if level == 7 || level == 14 then 4 * level + 1 else 4 * level)
      && (level != 17 && level != 18 ==> -2 <= back - percent <= 3)
  {
    var level := Level(percent);
    var code := PercentToMilightBrightness(percent);
    PercentBands(percent);
    assert ToInt32(code) == code;
    if level <= 16 {
      assert Shr3(code) == 16 - level;
    } else if level >= 19 {
      assert Shr3(code) == 50 - level;
    } else {
      assert Shr3(code) == 31;
    }
  }

  /** The decoder on every byte: codes below 0x88 fall in the lower band,
      0x88..0xA0 give a negative band and clamp to 0, the dead zone
      0xA1..0xC7 is snapped to 0xC8 and reads, like 0xC8 itself, as 100, and
      codes above 0xC8 fall in the upper band. */
  lemma DecodeBands(code: int)
    requires 0 <= code <= 255
    ensures code < 0x88 ==> MilightBrightnessToPercent(code) == CeilScale(16 - code / 8)
    ensures 0x88 <= code <= 0xA0 ==> MilightBrightnessToPercent(code) == 0
    ensures 0xA0 < code <= 0xC8 ==> MilightBrightnessToPercent(code) == 100
    ensures 0xC8 < code ==> MilightBrightnessToPercent(code) == CeilScale(50 - code / 8)
  {
    var snapped := if code < 0xC8 && code > 0xA0 then 0xC8 else code;
    Int32Small(snapped);
    assert Shr3(snapped) == snapped / 8;
  }
}
