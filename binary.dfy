/** Fixed-width unsigned integers and their big-endian byte layout (Go's `binary.BigEndian`). */
module Binary {

  type Byte = b: int | 0 <= b < 0x100
  type U16 = x: int | 0 <= x < 0x1_0000
  type U32 = x: int | 0 <= x < 0x1_0000_0000
  type U64 = x: int | 0 <= x < 0x1_0000_0000_0000_0000

  /** The two bytes of `v`, most significant first. */
  function BE16(v: U16): seq<Byte> {
    [v / 0x100, v % 0x100]
  }

  /** The four bytes of `v`, most significant first. */
  function BE32(v: U32): seq<Byte> {
    [v / 0x100_0000, v / 0x1_0000 % 0x100, v / 0x100 % 0x100, v % 0x100]
  }

  /** The value of two big-endian bytes. */
  function ReadBE16(b: seq<Byte>): U16
    requires |b| == 2
  {
    b[0] as int * 0x100 + b[1]
  }

  /** The value of four big-endian bytes. */
  function ReadBE32(b: seq<Byte>): U32
    requires |b| == 4
  {
    b[0] as int * 0x100_0000 + b[1] as int * 0x1_0000 + b[2] as int * 0x100 + b[3]
  }

  /** Reading back what BE16 wrote gives the value. */
  lemma ReadBE16OfBE16(v: U16)
    ensures |BE16(v)| == 2 && ReadBE16(BE16(v)) == v
  {
    assert v == (v / 0x100) * 0x100 + v % 0x100;
  }

  /** Writing what ReadBE16 read gives the bytes back: the layout is a bijection. */
  lemma BE16OfReadBE16(b: seq<Byte>)
    requires |b| == 2
    ensures BE16(ReadBE16(b)) == b
  {
    var v := ReadBE16(b);
    DivModUnique(v, 0x100, b[0], b[1]);
  }

  /** Reading back what BE32 wrote gives the value. */
  lemma ReadBE32OfBE32(v: U32)
    ensures |BE32(v)| == 4 && ReadBE32(BE32(v)) == v
  {
    var hi, lo := v / 0x1_0000, v % 0x1_0000;
    assert v == hi * 0x1_0000 + lo;
    assert v / 0x100_0000 == hi / 0x100 by { DivDiv(v, 0x1_0000, 0x100); }
    assert v / 0x1_0000 % 0x100 == hi % 0x100;
    assert v / 0x100 % 0x100 == lo / 0x100 by {
      DivModUnique(v / 0x100, 0x100, hi, lo / 0x100);
    }
    assert v % 0x100 == lo % 0x100 by {
      DivModUnique(v, 0x100, hi * 0x100 + lo / 0x100, lo % 0x100);
    }
    assert hi == (hi / 0x100) * 0x100 + hi % 0x100;
    assert lo == (lo / 0x100) * 0x100 + lo % 0x100;
  }

  /** Writing what ReadBE32 read gives the bytes back. */
  lemma BE32OfReadBE32(b: seq<Byte>)
    requires |b| == 4
    ensures BE32(ReadBE32(b)) == b
  {
    var v := ReadBE32(b);
    var hi: int, lo: int := b[0] as int * 0x100 + b[1], b[2] as int * 0x100 + b[3];
    assert v == hi * 0x1_0000 + lo;
    DivModUnique(v, 0x1_0000, hi, lo);
    DivDiv(v, 0x1_0000, 0x100);
    DivModUnique(hi, 0x100, b[0], b[1]);
    DivModUnique(lo, 0x100, b[2], b[3]);
    DivModUnique(v / 0x100, 0x100, hi, lo / 0x100);
    DivModUnique(v, 0x100, hi * 0x100 + lo / 0x100, lo % 0x100);
  }

  /** Quotient and remainder are determined by the division equation. */
  lemma DivModUnique(v: int, d: int, q: int, r: int)
    requires d > 0 && 0 <= r < d && v == q * d + r
    ensures v / d == q && v % d == r
  {
    var q', r' := v / d, v % d;
    assert v == q' * d + r';
    assert (q - q') * d == r' - r;
    if q > q' {
      MulAtLeast(q - q', d);
    } else if q < q' {
      MulAtLeast(q' - q, d);
    }
  }

  /** A positive multiple of d is at least d. */
  lemma MulAtLeast(a: int, d: int)
    requires a >= 1 && d > 0
    ensures a * d >= d
  {
    assert a * d == (a - 1) * d + d;
  }

  /** Dividing twice is dividing by the product. */
  lemma DivDiv(v: nat, d1: nat, d2: nat)
    requires d1 > 0 && d2 > 0
    ensures v / d1 / d2 == v / (d1 * d2)
  {
    var a, s := v / d1, v % d1;
    var q, m := a / d2, a % d2;
    assert v == a * d1 + s;
    assert a == q * d2 + m;
    Regroup(q, m, d1, d2, s);
    BelowProduct(m, s, d1, d2);
    DivModUnique(v, d1 * d2, q, m * d1 + s);
  }

  /** (q * d2 + m) * d1 + s, regrouped around the product d1 * d2. */
  lemma Regroup(q: int, m: int, d1: int, d2: int, s: int)
    ensures (q * d2 + m) * d1 + s == q * (d1 * d2) + (m * d1 + s)
  {
    assert (q * d2 + m) * d1 == q * d2 * d1 + m * d1;
  }

  /** A digit m below d2 followed by a digit s below d1 stays below d1 * d2. */
  lemma BelowProduct(m: nat, s: nat, d1: nat, d2: nat)
    requires m < d2 && s < d1
    ensures m * d1 + s < d1 * d2
  {
    assert m * d1 <= (d2 - 1) * d1;
  }

}
