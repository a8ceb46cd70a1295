/** The ASCII line the controller queues for the bridge:
    "B" disco id color brightness button counter CRLF dots CRLF. */
module Packets {
  import opened Hex

  /** An argument of `_numHex`: a number, or a literal string such as "0F",
      whose toString(16) is the string itself. */
  datatype Field = Num(n: int) | Literal(s: string)

  function FieldHex(f: Field): (s: string)
    ensures |s| % 2 == 0
  {
    match f
    case Num(n) => NumHex(n)
    case Literal(s) => Pad(s)
  }

  /** The decimal digits JavaScript writes when a non-negative integer below
      10^21 is concatenated to a string (from 10^21 on it switches to exponent
      notation; the controller only ever passes the disco number 0). */
  function Decimal(n: nat): (s: string)
    ensures |s| >= 1
    ensures n < 10 ==> s == [('0' as int + n) as char]
  {
    var last := [('0' as int + n % 10) as char];
    if n < 10 then last else Decimal(n / 10) + last
  }

  predicate AllDecimal(s: string) {
    forall i :: 0 <= i < |s| ==> '0' <= s[i] <= '9'
  }

  /** The value of a string of decimal digits, most significant digit first. */
  function ParseDecimal(s: string): nat
    requires AllDecimal(s)
  {
    if s == [] then 0 else 10 * ParseDecimal(s[..|s| - 1]) + (s[|s| - 1] as int - '0' as int)
  }

  /** The digits written for n are decimal digits and read back as n. */
  lemma {:induction false} DecimalReadBack(n: nat)
    ensures AllDecimal(Decimal(n)) && ParseDecimal(Decimal(n)) == n
  {
    if n >= 10 {
      DecimalReadBack(n / 10);
      var s := Decimal(n);
      assert s[..|s| - 1] == Decimal(n / 10);
    }
  }

  /** The repeat padding: n dots (none when n is not positive). */
  function Dots(n: int): (s: string)
    ensures |s| == if n <= 0 then 0 else n
    ensures forall i :: 0 <= i < |s| ==> s[i] == '.'
  {
    if n <= 0 then "" else Dots(n - 1) + "."
  }

  /** The arguments of one accepted `_queueData` call, with `brightness`
      already or-ed with the zone and `counter` already incremented. */
  datatype Packet = Packet(disco: nat, id: string, color: string, brightness: int,
                           button: Field, counter: int, repeats: int)
  {
    /** The line as `_queueData` concatenates it. */
    function Text(): (t: string)
      ensures |t| > 0 && t[0] == 'B'
    {
      Line("B" + Decimal(disco) + id, color, NumHex(brightness), FieldHex(button),
           NumHex(counter), Dots(repeats))
    }
  }

  /** head, colour, brightness, button and counter side by side, CRLF, the
      repeat padding, CRLF. */
  function Line(head: string, color: string, b: string, f: string, c: string, dots: string): (t: string)
    ensures |t| == |head| + |color| + |b| + |f| + |c| + |dots| + 4
    ensures |head| > 0 ==> t[0] == head[0]
  {
    head + color + b + f + c + "\r\n" + dots + "\r\n"
  }

  /** The `for` loop of `_queueData` that appends one "." per repeat. */
  method RepeatDots(repeats: int) returns (s: string)
    ensures s == Dots(repeats)
  {
    s := "";
    var i := 0;
    while i < repeats
      invariant 0 <= i <= (if repeats < 0 then 0 else repeats)
      invariant s == Dots(i)
    {
      s := s + ".";
      i := i + 1;
    }
  }

  /** The string building of `_queueData`: the repeat padding from its loop,
      then the fields side by side. */
  method BuildLine(p: Packet) returns (line: string)
    ensures line == p.Text()
  {
    var dots := RepeatDots(p.repeats);
    line := "B" + Decimal(p.disco) + p.id + p.color + NumHex(p.brightness) + FieldHex(p.button)
            + NumHex(p.counter) + "\r\n" + dots + "\r\n";
  }

  /** With byte-sized numbers and a two-character colour and button, the line
      is "B0", the id, and then two characters each of colour, brightness,
      button and counter, CRLF, the dots, CRLF; every number field is a pair
      of hex digits that reads back as the value encoded. */
  lemma PacketLayout(p: Packet)
    requires p.disco == 0 && |p.color| == 2
    requires 0 <= p.brightness <= 255 && 1 <= p.counter <= 255
    requires p.button.Num? ==> 0 <= p.button.n <= 255
    requires p.button.Literal? ==> |p.button.s| == 2
    ensures var b, f, c := NumHex(p.brightness), FieldHex(p.button), NumHex(p.counter);
      && p.Text() == "B0" + p.id + p.color + b + f + c + "\r\n" + Dots(p.repeats) + "\r\n"
      && |b| == 2 && |f| == 2 && |c| == 2
      && AllHex(b) && ParseHex(b) == p.brightness
      && AllHex(c) && ParseHex(c) == p.counter
      && (p.button.Num? ==> AllHex(f) && ParseHex(f) == p.button.n)
      && (p.button.Literal? ==> f == p.button.s)
  {
    ByteField(p.brightness);
    ByteField(p.counter);
    if p.button.Num? {
      ByteField(p.button.n);
    }
    assert "B" + Decimal(p.disco) == "B0";
  }

  /** `_numHex` of a byte: two hex digits that read back as the byte. */
  lemma ByteField(n: int)
    requires 0 <= n <= 255
    ensures |NumHex(n)| == 2 && AllHex(NumHex(n)) && ParseHex(NumHex(n)) == n
  {
    NumHexSpec(n);
    LowerIsHex(NumHex(n));
  }

  lemma LowerIsHex(s: string)
    requires AllLowerHex(s)
    ensures AllHex(s)
  {
  }

  /** The counter is not kept to a byte: from 256 on its field has four or more
      digits and the packet is at least two characters longer than the fixed
      layout. */
  lemma CounterWidens(p: Packet)
    requires p.counter >= 256
    ensures |NumHex(p.counter)| >= 4
    ensures |p.Text()| >= |p.(counter := 1).Text()| + 2
  {
    NumHexSpec(p.counter);
    NumHexSpec(1);
  }
}
