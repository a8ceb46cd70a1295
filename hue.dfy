/** The bulb's 256-step hue wheel. Red, hue 0 degrees, sits at wheel position
    26 and the wheel runs the other way round from the HSV circle. */
module Hue {
  import opened Bits

  /** `_hsvToMilightColor` for an integer hue degree in [0, 360], the range the
      controller's RGB to HSV step produces: (256 + 26 - floor(h / 360 * 255)) % 256.
      For these arguments the double quotient floors to the exact integer one. */
  function HsvToMilightColor(hue: int): (index: int)
    requires 0 <= hue <= 360
    ensures 0 <= index <= 255
    ensures hue == 0 ==> index == 26
  {
    (256 + 26 - (hue * 255) / 360) % 256
  }

  /** The hue degree `_MilightColorToRGB` computes for a wheel position before
      it converts to RGB: c1 = floor((m / 255 * 359) % 360) - 36, then the
      degree is -c1 when c1 <= 0 and 360 - c1 otherwise. For m in [0, 255] the
      double product floors to the exact integer one. */
  function MilightColorToDegree(index: int): (degree: int)
    requires 0 <= index <= 255
    ensures 0 <= degree <= 359
  {
    var c1 := (index * 359) / 255 % 360 - 36;
    if c1 <= 0 then -c1 else 360 - c1
  }

  /** Going round the wheel and back loses at most three degrees, always
      downwards: for every hue h in [0, 360] the decoded degree d satisfies
      h - 3 <= d <= h. */
  lemma HueRoundTrip(hue: int)
    requires 0 <= hue <= 360
    ensures var degree := MilightColorToDegree(HsvToMilightColor(hue));
      hue - 3 <= degree <= hue
  {
    var q := (hue * 255) / 360;
    if q <= 26 {
      ModUnique(256 + 26 - q, 256, 1, 26 - q);
      WheelLow(hue, q);
      var f := ((26 - q) * 359) / 255;
      ModUnique(f, 360, 0, f);
    } else {
      ModUnique(256 + 26 - q, 256, 0, 282 - q);
      WheelHigh(hue, q);
      var f := ((282 - q) * 359) / 255;
      ModUnique(f, 360, 0, f);
    }
  }

  /** Hues whose wheel position is 26 - q for q <= 26 (the red end). */
  lemma WheelLow(hue: int, q: int)
    requires 0 <= hue <= 360 && q == (hue * 255) / 360 && q <= 26
    ensures var f := ((26 - q) * 359) / 255;
      0 <= f <= 36 && hue - 3 <= 36 - f <= hue
  {
    var f := ((26 - q) * 359) / 255;
    assert 360 * q <= hue * 255 < 360 * q + 360;
    assert 255 * f <= (26 - q) * 359 < 255 * f + 255;
  }

  /** Hues whose wheel position is 282 - q for q > 26. */
  lemma WheelHigh(hue: int, q: int)
    requires 0 <= hue <= 360 && q == (hue * 255) / 360 && q > 26
    ensures var f := ((282 - q) * 359) / 255;
      38 <= f < 360 && hue - 3 <= 396 - f <= hue
  {
    var f := ((282 - q) * 359) / 255;
    assert 360 * q <= hue * 255 < 360 * q + 360;
    assert 255 * f <= (282 - q) * 359 < 255 * f + 255;
  }
}
