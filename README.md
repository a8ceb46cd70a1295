# node-milight-rf24 controller, modelled in Dafny

`index.js` defines `MilightRF24Controller`, which drives a MiLight RGBW bulb
bridge over a serial line. It has four parts, and this project models each:

- **Packet encoder.** `setColor`, `setBrightness`, `sendButton` and
  `sendDiscomode` build their fields and call `_queueData`.
  - `_queueData` refuses a zone above 4.
  - Otherwise it increments the controller's packet counter and builds the
    ASCII line `"B" disco id color hex(brightness|zone) hex(button) hex(counter) CRLF dots CRLF`.
  - `_numHex` pads JavaScript's `toString(16)` text to an even number of digits.
- **Send queue.** `_queueData` pushes each line onto the `_packets` FIFO and
  calls `_sendData`.
  - `_sendData` starts a drain only when none is running and the bridge has
    been initialised.
  - Each run of the "sendData" handler emits and writes the head of the
    queue, then re-arms a 100 ms timer.
  - On an empty queue the handler emits "Queue Finished" and ends the drain.
  - `open` waits for the port's "open" event, starts a 5000 ms warm-up, then
    writes `xr\r\n`. The write's callback marks the controller opened and
    kicks the queue.
- **Quantisation maps.** Brightness percent to device code and back
  (`_PercentToMilightBrightness`, `_MilightBrightnessToPercent`). HSV hue to
  the bulb's 256-step colour wheel (`_hsvToMilightColor`), and wheel
  position back to a hue degree (the first step of `_MilightColorToRGB`).
- **Receive decoder.** The parser passes on lines of exactly 22 characters.
  The "dataReceived" handler drops the resend noise, splits the line on
  spaces, hex-parses the tokens and takes zone, button, long-press, disco
  mode and brightness apart with bit masks.

Modules, one per concern:

- `Hex` (`hex.dfy`): `toString(16)` and `_numHex`.
- `Bits` (`bits.dfy`): JavaScript's 32-bit `|`, `&`, `<<` and `>>`.
- `Brightness` (`brightness.dfy`) and `Hue` (`hue.dfy`): the two maps.
- `Packets` (`packets.dfy`): the packet line.
- `Decoder` (`decoder.dfy`): the receive path.
- `Controller` (`controller.dfy`): the controller as a class whose methods
  update its fields. The serial port, the event emitter and the timers are
  replaced by:
  - a log of writes and a log of emitted events;
  - counters of pending timers, listeners and callbacks;
  - one method per timer expiry or port event, called by the environment.

Where the JavaScript computes with doubles, the model gives the value IEEE-754
arithmetic produces for the integer arguments it handles. Most of these
expressions are exact, with three exceptions:

- `Math.round(58/100*25)` is 14, because the product is 14.499999999999998.
- `Math.ceil(7/25*100)` is 29.
- `Math.ceil(14/25*100)` is 57.

The model writes these three out as constants.

The counter is modelled as written. When the counter exceeds 255, the reset
at `index.js:171-172` assigns the global `_counter`, not `self._counter`. So
the controller's counter is never reset. From 256 on, the counter field of a
packet has four or more hex digits, and the fixed layout no longer holds.

## Model

| member | source | states |
|---|---|---|
| Hex.ParseHex | index.js:58 | No contract: `parseInt(t, 16)` on a string of hex digits, the independent reader that Hex.ParseToHex, Hex.NumHexSpec and the decoder lemmas use. |
| Hex.ToHex | index.js:193 | At least one digit; see Hex.ToHexLower, Hex.ParseToHex, Hex.ToHexCanonical and Hex.ToHexLength. |
| Hex.JsHex | index.js:193 | No contract: `toString(16)` with the minus sign; see Hex.NumHexSpec and Hex.NumHexNegative. |
| Hex.NumHex | index.js:192-196 | `_numHex` always returns an even number of characters; see Hex.NumHexSpec for the value. |
| Hex.Pad | index.js:194 | The result has even length and is the argument, or the argument with one "0" in front. |
| Hex.ToHexLower | index.js:193 | `toString(16)` of a non-negative integer writes lower-case hex digits only. |
| Hex.ParseToHex | index.js:193 | The digits `toString(16)` writes read back, as hex, to the number itself. |
| Hex.ToHexCanonical | index.js:193 | There is no leading zero: the text starts with "0" exactly for 0. |
| Hex.ToHexLength | index.js:193 | The text has one digit below 16, two from 16 to 255, and three or more from 256 on (each an if-and-only-if). |
| Hex.NumHexSpec | index.js:192-196 | `_numHex(n)` for n ≥ 0 is an even-length lower-case hex string denoting n. It has exactly two digits iff n ≤ 255 and four or more iff n ≥ 256. |
| Hex.NumHexNegative | index.js:192-196 | A negative argument keeps the minus sign, possibly behind a padding "0", and the length stays even. |
| Bits.Or | index.js:179 | No contract: bitwise or on naturals; see Bits.OrZone, Bits.OrAll255 and Bits.OrBit4. |
| Bits.And | index.js:58-74 | No contract: bitwise and on naturals; see Bits.AndLow3, Bits.AndLow4, Bits.AndBit4 and Bits.AndHigh5. |
| Bits.Int32Or | index.js:179 | No contract: JavaScript's `\|` on 32-bit values; see Bits.OrZone, Bits.OrAll255 and Bits.OrBit4. |
| Bits.Shl3 | index.js:348 | No contract: `x << 3`; see Brightness.PercentBands. |
| Bits.Shr3 | index.js:361 | No contract: `x >> 3`, rounding down; see Brightness.BrightnessRoundTrip. |
| Bits.ToInt32 | index.js:179 | The 32-bit conversion lands in [-2^31, 2^31) and is congruent to its argument modulo 2^32. |
| Bits.AndLow3 | index.js:58 | `n & 0x07` is n mod 8. |
| Bits.AndLow4 | index.js:59 | `n & 0x0F` is n mod 16. |
| Bits.AndBit4 | index.js:74 | `n & 0x10` is 16 times bit 4 of n. |
| Bits.AndHigh5 | index.js:66 | `n & 0xF8` is the low byte of n with its three low bits cleared. |
| Bits.OrZone | index.js:179 | For a byte code that is a multiple of 8 and a zone below 8, `code \| zone` is their sum, and `& 0x07` and `& 0xF8` recover zone and code. |
| Bits.OrAll255 | index.js:179 | `255 \| zone` is 255 for every zone below 8, so the zone is lost. |
| Bits.OrBit4 | index.js:145 | For a button code below 16, `button \| 0x10` is button + 16. |
| Brightness.Level | index.js:335 | The level lies in 0..25 and is 0 for percent ≤ 0. For percent ≥ 0 other than 58 it is the nearest level, with a tie (percent = 4L + 2) rounding up as `Math.round` does: 4L − 2 ≤ percent < 4L + 2. Percent 58 gives 14, because of double rounding. |
| Brightness.PercentToMilightBrightness | index.js:334-354 | The code lies in 0..255 and is 255 or a multiple of 8. |
| Brightness.PercentBands | index.js:337-351 | Levels 0..16 map to 8(16 − L); levels 17 and 18 clamp to 255; levels 19..25 map to 8(50 − L). The code is 255 exactly for percent 66..73. |
| Brightness.CeilScale | index.js:374 | `ceil(x/25*100)` is exactly 4x for every x other than 7 and 14, and exactly 4x + 1 (29 and 57) for those two. |
| Brightness.Clamp | index.js:374 | `Math.max(0, Math.min(100, v))` is 0 below 0, 100 above 100, and v itself in between. |
| Brightness.MilightBrightnessToPercent | index.js:356-375 | Every byte decodes to a percentage in 0..100. |
| Brightness.DecodeBands | index.js:356-375 | Every byte's decoded percentage by range. Below 0x88 it is the lower band, CeilScale(16 − code/8). 0x88..0xA0 clamps to 0. The dead zone 0xA1..0xC7 is snapped to 0xC8 and reads, like 0xC8, as 100. Above 0xC8 it is the upper band, CeilScale(50 − code/8). |
| Brightness.BrightnessRoundTrip | index.js:334-375 | Decoding an encoded percentage gives 4L for its level L. The exceptions: levels 7 and 14 give 4L + 1, and levels 17 and 18 give 76. Outside 66..73 the result is within −2..+3 of the input. |
| Hue.HsvToMilightColor | index.js:236-241 | A hue in 0..360 maps to a wheel position in 0..255, and red (0°) maps to 26. |
| Hue.MilightColorToDegree | index.js:327-329 | Every wheel position maps to a degree in 0..359. |
| Hue.HueRoundTrip | index.js:327-329 | The degree decoded from the wheel position of hue h lies between h − 3 and h. |
| Packets.FieldHex | index.js:185 | A button field always has an even number of characters. |
| Packets.Decimal | index.js:185 | The decimal text of the disco number has at least one digit, and for n below 10 it is exactly the digit of n. |
| Packets.DecimalReadBack | index.js:185 | The text written for any n ≥ 0 consists of decimal digits and reads back as n. |
| Packets.Dots | index.js:181-183 | The padding has max(repeats, 0) characters, all ".". |
| Packets.RepeatDots | index.js:181-183 | The loop builds exactly the padding `Dots(repeats)`. |
| Packets.BuildLine | index.js:181-185 | The concatenation in `_queueData` builds exactly the packet's line. |
| Packets.Packet.Text | index.js:185 | A packet line is non-empty and starts with "B". |
| Packets.ByteField | index.js:192-196 | `_numHex` of a byte is two hex digits that read back as the byte. |
| Packets.PacketLayout | index.js:185 | With disco 0 and byte-sized values, the line is "B0", the id, then two characters each of colour, brightness, button and counter, CRLF, dots, CRLF. Each number field reads back as its value, and a literal button field ("0F", "0E") goes out as written. |
| Packets.CounterWidens | index.js:177-185 | From counter 256 on, the counter field has four or more digits and the line is at least two characters longer than with counter 1. |
| Decoder.Split | index.js:56 | `split(" ")` yields at least one token, and no token contains a space. |
| Decoder.JoinSplit | index.js:56 | Joining the tokens with single spaces gives the line back. |
| Decoder.RemoveFirst | index.js:78 | `replace("\n", "")` changes nothing without a newline and removes exactly one character otherwise. |
| Decoder.RemoveFirstAt | index.js:78 | The character removed is the first newline: the result is the string with position i cut out, where s[i] is the newline and none comes before it. |
| Decoder.ZoneBits | index.js:58 | The zone is token 4's value mod 8. |
| Decoder.Nibble | index.js:59 | The button code (token 5), like the disco mode (token 0), is the value mod 16. |
| Decoder.LongPressBit | index.js:74-76 | Long press is set iff bit 4 of token 5 is one. |
| Decoder.BrightnessBits | index.js:66 | Brightness bits are the byte minus its zone bits: a multiple of 8 below 256. |
| Decoder.Lead | index.js:70 | No contract: `parseInt` skipping the newline the first token may start with; see Decoder.DecodeFields. |
| Decoder.Fields | index.js:56-97 | No contract: the field extraction of the "dataReceived" handler; see Decoder.DecodeFields. |
| Decoder.Decode | index.js:110 | No contract: the parser's length filter (this line) and the handler's noise check (index.js:53-54) before Fields; see Decoder.DecodeDrops and Decoder.DecodeFields. |
| Decoder.DecodeDrops | index.js:53-54 | A line yields no event iff its length is not 22 (the filter at index.js:110) or it is the resend noise (these lines), which itself has 22 characters. |
| Decoder.DecodeFields | index.js:56-79 | For any other line: text is the line; id is token 1 followed by token 2; zone is mod 8 of token 4's value; button is mod 16 of token 5's value; long press is bit 4 of that value; disco mode is present iff the button is 0x0D and is then mod 16 of token 0's value; brightness decodes token 4 with its zone bits cleared; the hue is the degree `_MilightColorToRGB` computes from token 3's value (a byte), in 0..359; raw is the tokens without the last one, with its first element token 0 stripped of the bridge's leading newline. |
| Decoder.BrightnessByte | index.js:179 | The byte `setBrightness` sends gives back its zone and code under the masks, except at 66..73 percent, where it reads as zone 7 and code 248. |
| Decoder.BrightnessByteRoundTrip | index.js:66-67 | A received `setBrightness` byte decodes to the sent zone and to the decoded percentage. At 66..73 percent it decodes to zone 7 and 76 percent. |
| Decoder.ButtonByte | index.js:144-145 | The button byte, with bit 4 set for a long press, splits back into code and flag. |
| Decoder.ButtonByteRoundTrip | index.js:59-76 | A received button byte decodes to the sent code and long-press flag. |
| Decoder.ColorByteRoundTrip | index.js:64 | A received `setColor` colour byte decodes to a degree within 3 below the sent hue. |
| Controller.SentPacketsAppend | index.js:36 | The packet lines emitted by a sequence of events are those of its first part followed by those of its second. |
| Controller.SentPacketsSnoc | index.js:36-45 | A "Sending" event adds its payload; the "Queue Finished" marker and received events add nothing. |
| Controller.SentPacketsReceived | index.js:97 | "Received" events never count as sent packets. |
| Controller.PacketWritesSnoc | index.js:37 | A packet write adds that line; the initialisation line adds nothing. |
| Controller.PacketLineDistinct | index.js:185 | A packet line is never "Queue Finished" or `xr\r\n`. |
| Controller.NumberedPush | index.js:177 | Accepting a packet with the next counter keeps the numbering "k-th packet carries k". |
| Controller.FifoShift | index.js:33-42 | Shifting, emitting and writing the head keeps the FIFO discipline: accepted lines = sent lines + queue, and port writes = sent lines. The sent lines grow by exactly the head. |
| Controller.FifoFinish | index.js:44-46 | The end-of-queue marker keeps the discipline and sends no packet line. |
| Controller.FifoPush | index.js:187 | Pushing an accepted packet's line keeps the discipline. |
| Controller.FifoInitLine | index.js:117 | Writing the initialisation line keeps the discipline. |
| Controller.FifoReceived | index.js:97 | Emitting received events keeps the discipline. |
| Controller.MilightController.constructor | index.js:19-23 | Counter 0, empty queue, not sending, not opened, empty logs. |
| Controller.MilightController.HandleSendData | index.js:32-48 | On a non-empty queue: exactly the head is removed, emitted and written, and one timer is added. On an empty queue: "Queue Finished" is emitted and sending is cleared. Nothing else changes. |
| Controller.MilightController.Step | index.js:40-42 | When the 100 ms timer fires, the handler runs again with the same effect as above, and the invariant is kept: FIFO order, one timer while sending, nothing sent before open, and an empty queue when idle and opened (for listeners that do not call back into the controller; see Left out). |
| Controller.MilightController.SendData | index.js:159-166 | A drain starts, with sending set and the first handler step run, only when not sending and opened. Otherwise queue, flags, timers and logs are unchanged. |
| Controller.MilightController.QueueData | index.js:168-190 | The overflow check writes only the global. Zone > 4 changes nothing else. Otherwise: the counter goes up by exactly 1; one packet with `brightness \| zone` and the new counter joins the queue tail; an idle opened controller sends it at once. |
| Controller.MilightController.Enqueue | index.js:177-189 | An accepted packet's line is pushed and `_sendData` runs, with the effect stated by QueueData. |
| Controller.MilightController.SetColor | index.js:125-130 | Queues the colour packet: wheel position in hex, brightness 0 with the zone, button "0F", 30 repeats. |
| Controller.MilightController.SetBrightness | index.js:132-139 | Queues the brightness packet: colour "00", code with the zone, button "0E", 30 repeats. |
| Controller.MilightController.SendButton | index.js:141-148 | Queues the button packet, with bit 4 set for a long press and 40 repeats. |
| Controller.MilightController.SendDiscomode | index.js:150-157 | A mode outside 0..8 changes nothing, not even the global. A valid mode is not encoded: the packet is button 0x0D with disco field 0. |
| Controller.MilightController.Open | index.js:104-107 | Registers one more "open" listener. |
| Controller.MilightController.PortOpened | index.js:107-122 | Each listener adds a parser and a 5000 ms warm-up timer. |
| Controller.MilightController.WarmupElapsed | index.js:116-117 | The warm-up timer fires: `xr\r\n` is written and its callback is pending. |
| Controller.MilightController.InitWritten | index.js:117-120 | The write completes: the controller is opened and, unless already sending, the queued packets start to drain. On an empty queue "Queue Finished" is emitted at once. |
| Controller.MilightController.OnLine | index.js:108-113 | A line that passes the length filter and is not the noise adds one "Received" event per parser. Any other line adds nothing. |

## Left out

- Serial I/O, the `Delimiter` parser and `drain` are left out; writes are a log. `index.js` never opens the port itself (`autoOpen` is false), so the port's "open" event is the environment method `PortOpened`.
- The EventEmitter inheritance and wiring are left out; emitted events are a sequence field, and the private "sendData" emitter is a direct method call.
- Re-entrant listeners are left out. The model treats `emit` as a log append, while `EventEmitter.emit` runs the user's listeners synchronously. At `index.js:45-46` "Queue Finished" is emitted before `_sending` is cleared. A "Sending" listener that calls `setColor` there pushes its packet while `_sending` is still true, so `_sendData` does nothing. The packet then waits in an opened, idle controller until the next command. The invariant "an empty queue when idle and opened" (`Controller.MilightController.Valid`) therefore holds only for listeners that do not call back into the controller.
- Timers are not timed: each `setTimeout` is a pending count, and its expiry is a method the environment calls in any order.
- `_rbgToHsv`, `_hsvToRgb` and the RGB output of `_MilightColorToRGB` use floating point with `Math.round`, so they are left out.
  - `setColor` takes an integer hue degree instead of r, g, b, so the (r, b, g) argument swap is not modelled.
  - The received event carries the decoded hue degree instead of an {r, g, b} object, so the g/b swap on output is not modelled.
- Brightness.Level: defined only for percent ≤ 100, because above 100 the double product rounds unlike `(p + 2) / 4` (for example at 114).
- Hue.HsvToMilightColor: defined only for integer hues in 0..360, the range the RGB-to-HSV step produces.
- Brightness.BrightnessRoundTrip: the bound is −2..+3, not ±2, because levels 7 and 14 decode one higher through the double rounding of `Math.ceil`.
- Decoder.Decode: a 22-character line other than the noise must have at least six tokens. Tokens 0 (after one leading newline), 3, 4 and 5 must each be one or two hex digits. `parseInt`'s NaN on malformed tokens, which `&` turns into 0, is not modelled.
- The noise string contains CRLF, and the CRLF-delimited parser never produces such a line. The check is modelled as written all the same.
- `longPress == true` is loose equality in JavaScript; the model takes a boolean.
- The string arguments "00", "0F" and "0E" are modelled as they act: "00" or-ed with the zone acts as 0, and "0F" and "0E" pass through `_numHex` as literal two-character fields.
- Zones are integers. A negative zone passes the `zone > 4` check, and its or-ed brightness is negative; the model carries this through to `_numHex`'s minus sign.
- The `_counter` global is a field `globalCounter` of the controller object, not a variable shared by all instances.
- The write callback's error argument is ignored, as in the source.
- `_lastSend` is never read, and the `RGBWButtons` constants are plain data, so both are left out.
