/** The controller's receive path: lines of exactly 22 characters from the
    bridge are split on spaces and their hex tokens are taken apart with bit
    masks into a Received event. */
module Decoder {
  import opened Hex
  import opened Bits
  import opened Brightness
  import opened Hue

  datatype Option<T> = None | Some(value: T)

  /** The line the bridge repeats when it resends; it is dropped. */
  const NOISE: string := "Resending\r\nResending\r\n"

  /** Only lines of this length reach the decoder. */
  const LINE_LENGTH: nat := 22

  /** String.prototype.split(" "): the pieces between spaces, empty ones included. */
  function Split(s: string): (tokens: seq<string>)
    ensures |tokens| >= 1
    ensures forall i :: 0 <= i < |tokens| ==> ' ' !in tokens[i]
  {
    if s == [] then [""]
    else
      var rest := Split(s[1..]);
      if s[0] == ' ' then [""] + rest
      else [[s[0]] + rest[0]] + rest[1..]
  }

  /** The tokens put back together with single spaces between them. */
  function Join(tokens: seq<string>): string
    requires |tokens| >= 1
  {
    if |tokens| == 1 then tokens[0] else tokens[0] + " " + Join(tokens[1..])
  }

  /** Splitting loses nothing: joining the tokens gives the line back. */
  lemma {:induction false} JoinSplit(s: string)
    ensures Join(Split(s)) == s
  {
    if s != [] {
      var rest := Split(s[1..]);
      JoinSplit(s[1..]);
      if s[0] == ' ' {
        assert Split(s) == [""] + rest;
        assert (["" ] + rest)[1..] == rest;
        assert Join(Split(s)) == " " + Join(rest);
      } else {
        var tokens := Split(s);
        assert tokens == [[s[0]] + rest[0]] + rest[1..];
        if |rest| == 1 {
          assert Join(tokens) == [s[0]] + rest[0];
        } else {
          assert tokens[1..] == rest[1..];
          assert Join(tokens) == [s[0]] + (rest[0] + " " + Join(rest[1..]));
        }
      }
    }
  }

  /** String.prototype.replace(c, "") for one character: the first c removed. */
  function RemoveFirst(s: string, c: char): (r: string)
    ensures c !in s ==> r == s
    ensures c in s ==> |r| == |s| - 1
  {
    if s == [] then s
    else if s[0] == c then s[1..]
    else [s[0]] + RemoveFirst(s[1..], c)
  }

  /** The character removed is the first occurrence of c: the result is the
      line with position i cut out, where i is the first index holding c. */
  lemma {:induction false} RemoveFirstAt(s: string, c: char)
    requires c in s
    ensures exists i :: 0 <= i < |s| && s[i] == c && c !in s[..i] && RemoveFirst(s, c) == s[..i] + s[i + 1..]
  {
    if s[0] == c {
      assert RemoveFirst(s, c) == s[..0] + s[1..];
      assert c !in s[..0];
    } else {
      var t := s[1..];
      assert c in t;
      RemoveFirstAt(t, c);
      var j :| 0 <= j < |t| && t[j] == c && c !in t[..j] && RemoveFirst(t, c) == t[..j] + t[j + 1..];
      assert s[..j + 1] == [s[0]] + t[..j];
      assert s[j + 2..] == t[j + 1..];
      var i := j + 1;
      assert RemoveFirst(s, c) == s[..i] + s[i + 1..];
      assert c !in s[..i];
      assert s[i] == c;
    }
  }

  /** The first token may start with the newline the bridge sends; parseInt
      skips it. */
  function Lead(t: string): string {
    if |t| > 0 && t[0] == '\n' then t[1..] else t
  }

  /** One or two hex digits: a byte as the bridge prints it. */
  predicate HexByte(t: string) {
    1 <= |t| <= 2 && AllHex(t)
  }

  /** A line whose tokens 0, 3, 4 and 5 are hex bytes, as the bridge sends them. */
  predicate WellFormed(line: string) {
    var t := Split(line);
    |t| >= 6 && HexByte(Lead(t[0])) && HexByte(t[3]) && HexByte(t[4]) && HexByte(t[5])
  }

  lemma ByteBound(t: string)
    requires HexByte(t)
    ensures ParseHex(t) <= 255
  {
    assert ParseHex(t[..|t| - 1]) <= 15 by {
      if |t| == 2 {
        assert t[..1][..0] == [];
      }
    }
  }

  /** `b & 0x07`: the zone, the low three bits. */
  function ZoneBits(b: nat): (zone: nat)
    ensures zone == b % 8
  {
    AndLow3(b);
    And(b, 0x07)
  }

  /** `b & 0x0F`: the low four bits, which carry the button code in token 5
      and the disco mode in token 0. */
  function Nibble(b: nat): (n: nat)
    ensures n == b % 16
  {
    AndLow4(b);
    And(b, 0x0F)
  }

  /** `(b & 0x10) != 0`: bit 4, the long-press flag. */
  function LongPressBit(b: nat): (pressed: bool)
    ensures pressed <==> (b / 16) % 2 == 1
  {
    AndBit4(b);
    And(b, 0x10) != 0
  }

  /** `b & 0xF8`: the brightness bits of a byte, its zone bits cleared. */
  function BrightnessBits(b: nat): (code: nat)
    requires b <= 255
    ensures code == b - b % 8 && code <= 255 && code % 8 == 0
  {
    AndHigh5(b);
    ModUnique(b, 256, 0, b);
    ModUnique(b - b % 8, 8, b / 8, 0);
    And(b, 0xF8)
  }

  /** The event object the "dataReceived" handler emits. `hue` is the degree
      `_MilightColorToRGB` computes for token 3; its RGB conversion is not part
      of this model. */
  datatype Received = Received(text: string, raw: seq<string>, id: string, zone: int,
                               button: int, longPress: bool, discoMode: Option<int>,
                               brightness: int, hue: int)

  /** The field extraction of the "dataReceived" handler. */
  function Fields(line: string): Received
    requires WellFormed(line)
  {
    var t := Split(line);
    var v0, v3, v4, v5 := ParseHex(Lead(t[0])), ParseHex(t[3]), ParseHex(t[4]), ParseHex(t[5]);
    ByteBound(t[3]);
    ByteBound(t[4]);
    var button := Nibble(v5);
    Received(line, [RemoveFirst(t[0], '\n')] + t[1..|t| - 1], t[1] + t[2], ZoneBits(v4), button,
             LongPressBit(v5), if button == 0x0D then Some(Nibble(v0)) else None,
             MilightBrightnessToPercent(BrightnessBits(v4)), MilightColorToDegree(v3))
  }

  /** The parser's length filter followed by the handler's noise check. */
  function Decode(line: string): Option<Received>
    requires |line| == LINE_LENGTH && line != NOISE ==> WellFormed(line)
  {
    if |line| != LINE_LENGTH then None
    else if line == NOISE then None
    else Some(Fields(line))
  }

  /** A line yields no event exactly when its length is not 22 or it is the
      resend noise (which has 22 characters, so the length filter alone would
      let it through). */
  lemma DecodeDrops(line: string)
    requires |line| == LINE_LENGTH && line != NOISE ==> WellFormed(line)
    ensures Decode(line).None? <==> |line| != LINE_LENGTH || line == NOISE
    ensures |NOISE| == LINE_LENGTH
  {
  }

  /** What the masks extract, stated on the token values: the zone is the low
      three bits of token 4, the button the low four bits of token 5,
      long-press its bit 4, the disco mode the low four bits of token 0 and is
      present exactly for button 0x0D, the brightness is decoded from token 4
      with its zone bits cleared; the id is tokens 1 and 2 side by side and raw
      is the token list without its last token. */
  lemma DecodeFields(line: string)
    requires |line| == LINE_LENGTH && line != NOISE && WellFormed(line)
    ensures var t, e := Split(line), Decode(line).value;
      var v0, v4, v5 := ParseHex(Lead(t[0])), ParseHex(t[4]), ParseHex(t[5]);
      && v4 <= 255 && v5 <= 255
      && e.text == line && e.id == t[1] + t[2]
      && e.zone == v4 % 8 && 0 <= e.zone <= 7
      && e.button == v5 % 16 && 0 <= e.button <= 15
      && (e.longPress <==> (v5 / 16) % 2 == 1)
      && (e.discoMode.Some? <==> e.button == 0x0D)
      && (e.discoMode.Some? ==> e.discoMode.value == v0 % 16)
      && e.brightness == MilightBrightnessToPercent(v4 - v4 % 8) && 0 <= e.brightness <= 100
      && ParseHex(t[3]) <= 255 && e.hue == MilightColorToDegree(ParseHex(t[3])) && 0 <= e.hue <= 359
      && |e.raw| == |t| - 1 && e.raw[1..] == t[1..|t| - 1]
      && e.raw[0] == Lead(t[0])
  {
    var t := Split(line);
    ByteBound(t[3]);
    ByteBound(t[4]);
    ByteBound(t[5]);
    if |t[0]| > 0 && t[0][0] == '\n' {
      assert RemoveFirst(t[0], '\n') == t[0][1..];
    } else {
      assert '\n' !in t[0];
    }
  }

  /** The byte `setBrightness` sends, `code | zone`, taken apart again: outside
      66..73 percent the masks give back the zone and the code; inside, the
      code is 255 and swallows the zone. */
  lemma BrightnessByte(percent: int, zone: int)
    requires 0 <= percent <= 100 && 0 <= zone <= 4
    ensures var code := PercentToMilightBrightness(percent);
      var v := Int32Or(code, zone);
      && 0 <= v <= 255
      && (!(66 <= percent <= 73) ==> ZoneBits(v) == zone && BrightnessBits(v) == code)
      && (66 <= percent <= 73 ==> ZoneBits(v) == 7 && BrightnessBits(v) == 248)
  {
    var code := PercentToMilightBrightness(percent);
    PercentBands(percent);
    if 66 <= percent <= 73 {
      OrAll255(zone);
    } else {
      OrZone(code, zone);
      ModUnique(code + zone, 8, code / 8, zone);
    }
  }

  /** The brightness byte a `setBrightness` packet carries decodes back to its
      zone and to the decoded level, for percentages outside 66..73; inside
      that range the byte is 255, so the zone reads as 7 and the brightness as
      76 percent. */
  lemma BrightnessByteRoundTrip(line: string, percent: int, zone: int)
    requires |line| == LINE_LENGTH && line != NOISE && WellFormed(line)
    requires 0 <= percent <= 100 && 0 <= zone <= 4
    requires ParseHex(Split(line)[4]) == Int32Or(PercentToMilightBrightness(percent), zone)
    ensures var e, code := Decode(line).value, PercentToMilightBrightness(percent);
      && (!(66 <= percent <= 73) ==> e.zone == zone && e.brightness == MilightBrightnessToPercent(code))
      && (66 <= percent <= 73 ==> e.zone == 7 && e.brightness == 76)
  {
    BrightnessByte(percent, zone);
    assert MilightBrightnessToPercent(248) == 76 by {
      assert Shr3(248) == 31;
    }
  }

  /** The byte `sendButton` sends for a code below 16, with bit 4 or-ed in for
      a long press, taken apart again by the two masks. */
  lemma ButtonByte(button: int, longPress: bool)
    requires 0 <= button <= 15
    ensures var v := if longPress then Int32Or(button, 0x10) else button;
      && 0 <= v <= 31 && Nibble(v) == button && LongPressBit(v) == longPress
  {
    if longPress {
      OrBit4(button);
      ModUnique(button + 16, 16, 1, button);
    } else {
      ModUnique(button, 16, 0, button);
    }
  }

  /** The button byte a `sendButton` packet carries for a button code below 16
      decodes back to that code and to the long-press flag. */
  lemma ButtonByteRoundTrip(line: string, button: int, longPress: bool)
    requires |line| == LINE_LENGTH && line != NOISE && WellFormed(line)
    requires 0 <= button <= 15
    requires ParseHex(Split(line)[5]) == if longPress then Int32Or(button, 0x10) else button
    ensures Decode(line).value.button == button
    ensures Decode(line).value.longPress == longPress
  {
    ButtonByte(button, longPress);
  }

  /** The colour byte a `setColor` packet carries for hue h decodes to a
      degree between h - 3 and h. */
  lemma ColorByteRoundTrip(line: string, hue: int)
    requires |line| == LINE_LENGTH && line != NOISE && WellFormed(line)
    requires 0 <= hue <= 360
    requires ParseHex(Split(line)[3]) == HsvToMilightColor(hue)
    ensures hue - 3 <= Decode(line).value.hue <= hue
  {
    HueRoundTrip(hue);
  }
}
