/** JavaScript's bitwise operators on numbers that are integers: the operands
    are first reduced to 32-bit two's complement (ToInt32), the result is a
    signed 32-bit integer. Bitwise `or` and `and` are defined digit by digit
    on naturals. */
module Bits {

  const TWO32: int := 0x1_0000_0000
  const TWO31: int := 0x8000_0000

  /** Bitwise or of two naturals. */
  function Or(a: nat, b: nat): nat
    decreases a
  {
    if a == 0 then b
    else if b == 0 then a
    else 2 * Or(a / 2, b / 2) + (if a % 2 == 1 || b % 2 == 1 then 1 else 0)
  }

  /** Bitwise and of two naturals. */
  function And(a: nat, b: nat): nat
    decreases a
  {
    if a == 0 || b == 0 then 0
    else 2 * And(a / 2, b / 2) + (if a % 2 == 1 && b % 2 == 1 then 1 else 0)
  }

  /** ToInt32: the signed 32-bit integer congruent to x modulo 2^32. */
  function ToInt32(x: int): (r: int)
    ensures -TWO31 <= r < TWO31
    ensures (r - x) % TWO32 == 0
  {
    var m := x % TWO32;
    if m >= TWO31 then m - TWO32 else m
  }

  /** `a | b` in JavaScript. */
  function Int32Or(a: int, b: int): int {
    ToInt32(Or(a % TWO32, b % TWO32))
  }

  /** `x << 3` in JavaScript. */
  function Shl3(x: int): int {
    ToInt32(x * 8)
  }

  /** `x >> 3` in JavaScript (the shift keeps the sign, so it rounds down). */
  function Shr3(x: int): int {
    ToInt32(x) / 8
  }

  predicate IsPow2(p: nat)
    decreases p
  {
    p == 1 || (p >= 2 && p % 2 == 0 && IsPow2(p / 2))
  }

  lemma Int32Small(x: int)
    requires 0 <= x < TWO31
    ensures ToInt32(x) == x && x % TWO32 == x
  {
  }

  lemma OrStep(a: nat, b: nat)
    ensures Or(a, b) == 2 * Or(a / 2, b / 2) + (if a % 2 == 1 || b % 2 == 1 then 1 else 0)
  {
    if a == 0 {
      assert Or(a / 2, b / 2) == b / 2;
    } else if b == 0 {
      assert Or(a / 2, b / 2) == a / 2;
    }
  }

  lemma AndStep(a: nat, b: nat)
    ensures And(a, b) == 2 * And(a / 2, b / 2) + (if a % 2 == 1 && b % 2 == 1 then 1 else 0)
  {
  }

  lemma {:induction false} OrComm(a: nat, b: nat)
    ensures Or(a, b) == Or(b, a)
    decreases a
  {
    if a != 0 && b != 0 {
      OrStep(b, a);
      OrComm(a / 2, b / 2);
    }
  }

  lemma ModUnique(n: int, d: int, q: int, s: int)
    requires d > 0 && n == d * q + s && 0 <= s < d
    ensures n % d == s && n / d == q
  {
    var q' := n / d;
    assert n == d * q' + n % d;
    if q' > q {
      MulMono(d, q + 1, q');
    } else if q' < q {
      MulMono(d, q' + 1, q);
    }
  }

  lemma MulMono(d: int, x: int, y: int)
    requires d > 0 && x <= y
    ensures d * x <= d * y
  {
  }

  /** Splitting off the lowest bit: n mod 2p from (n / 2) mod p. */
  lemma HalfMod(n: nat, p: nat)
    requires p > 0
    ensures n % (2 * p) == 2 * ((n / 2) % p) + n % 2
  {
    var a := n / 2;
    var q := a / p;
    var r := a % p;
    assert a == p * q + r;
    assert n == (2 * p) * q + (2 * r + n % 2);
    ModUnique(n, 2 * p, q, 2 * r + n % 2);
  }

  /** Halving both sides of a division by an even number. */
  lemma HalfDiv(n: nat, p: nat)
    requires p >= 2 && p % 2 == 0
    ensures (n / 2) / (p / 2) == n / p
  {
    var q, r := n / p, n % p;
    var m := (p / 2) * q;
    assert n == 2 * m + r;
    assert n / 2 == m + r / 2;
    ModUnique(n / 2, p / 2, q, r / 2);
  }

  /** Or-ing a value below a power of two p into a multiple of p is addition. */
  lemma {:induction false} OrDisjoint(c: nat, z: nat, p: nat)
    requires IsPow2(p) && c % p == 0 && z < p
    ensures Or(c, z) == c + z
    decreases p
  {
    if p == 1 {
      assert z == 0;
    } else {
      HalfMod(c, p / 2);
      OrDisjoint(c / 2, z / 2, p / 2);
      OrStep(c, z);
    }
  }

  /** Or-ing a value below a power of two p into p - 1 changes nothing. */
  lemma {:induction false} OrOnes(p: nat, z: nat)
    requires IsPow2(p) && z < p
    ensures Or(p - 1, z) == p - 1
    decreases p
  {
    if p > 1 {
      OrOnes(p / 2, z / 2);
      OrStep(p - 1, z);
    }
  }

  /** And with p - 1, for a power of two p, keeps the bits below p. */
  lemma {:induction false} AndLowMask(n: nat, p: nat)
    requires IsPow2(p)
    ensures And(n, p - 1) == n % p
    decreases p
  {
    if p > 1 {
      AndStep(n, p - 1);
      AndLowMask(n / 2, p / 2);
      HalfMod(n, p / 2);
    }
  }

  /** And with a power of two p picks out that one bit. */
  lemma {:induction false} AndSingle(n: nat, p: nat)
    requires IsPow2(p)
    ensures And(n, p) == if (n / p) % 2 == 1 then p else 0
    decreases p
  {
    AndStep(n, p);
    if p > 1 {
      AndSingle(n / 2, p / 2);
      HalfDiv(n, p);
    }
  }

  /** And with an even mask 2m is twice the and of the halves. */
  lemma AndEven(n: nat, m: nat)
    ensures And(n, 2 * m) == 2 * And(n / 2, m)
  {
    AndStep(n, 2 * m);
  }

  /** `n & 0x07`: the low three bits. */
  lemma AndLow3(n: nat)
    ensures And(n, 0x07) == n % 8
  {
    assert IsPow2(8);
    AndLowMask(n, 8);
  }

  /** `n & 0x0F`: the low four bits. */
  lemma AndLow4(n: nat)
    ensures And(n, 0x0F) == n % 16
  {
    assert IsPow2(16);
    AndLowMask(n, 16);
  }

  /** `n & 0x10` is bit 4 of n. */
  lemma AndBit4(n: nat)
    ensures And(n, 0x10) == 16 * ((n / 16) % 2)
  {
    assert IsPow2(16);
    AndSingle(n, 16);
  }

  /** `n & 0xF8`: bits 3 to 7, i.e. the low byte with its three low bits cleared. */
  lemma AndHigh5(n: nat)
    ensures And(n, 0xF8) == n % 256 - n % 8
  {
    AndEven(n, 0x7C);
    AndEven(n / 2, 0x3E);
    AndEven(n / 2 / 2, 0x1F);
    HalfDiv(n, 4);
    HalfDiv(n, 8);
    assert n / 2 / 2 / 2 == n / 8;
    assert IsPow2(32);
    AndLowMask(n / 8, 32);
    var k, r := (n / 8) / 32, (n / 8) % 32;
    assert n == 256 * k + (8 * r + n % 8);
    ModUnique(n, 256, k, 8 * r + n % 8);
  }

  /** For a byte whose low three bits are clear and a zone below 8, JavaScript's
      `code | zone` is `code + zone`, and `& 0x07` and `& 0xF8` split it again. */
  lemma OrZone(code: int, zone: int)
    requires 0 <= code <= 255 && code % 8 == 0
    requires 0 <= zone < 8
    ensures Int32Or(code, zone) == code + zone
    ensures And(code + zone, 0x07) == zone
    ensures And(code + zone, 0xF8) == code
  {
    Int32Small(code);
    Int32Small(zone);
    assert IsPow2(8);
    OrDisjoint(code, zone, 8);
    Int32Small(code + zone);
    AndLow3(code + zone);
    AndHigh5(code + zone);
    ModUnique(code + zone, 8, code / 8, zone);
    ModUnique(code + zone, 256, 0, code + zone);
  }

  /** For a zone below 8, JavaScript's `255 | zone` is 255: the zone is lost. */
  lemma OrAll255(zone: int)
    requires 0 <= zone < 8
    ensures Int32Or(255, zone) == 255
  {
    Int32Small(zone);
    assert IsPow2(256);
    OrOnes(256, zone);
  }

  /** For a code below 16, JavaScript's `code | 0x10` is code + 16. */
  lemma OrBit4(code: int)
    requires 0 <= code < 16
    ensures Int32Or(code, 0x10) == code + 16
  {
    Int32Small(code);
    assert IsPow2(16);
    OrComm(code, 16);
    OrDisjoint(16, code, 16);
  }
}
