/**
 * The CRC of the Optotune lens driver's serial frames: CRC-16/ARC
 * (reflected polynomial 0xA001, initial value 0, no final XOR), computed with
 * a 256-entry lookup table. The table and the table-driven loop are the
 * driver's; the bit-by-bit definition is the reference they are proved against.
 *
 * The driver works on Python integers, so the model does too: `x >> n` on a
 * non-negative integer is `x / 2^n`, `x & 0xFF` is `x % 256`, `x & 1` is
 * `x % 2`, and `^` is `Xor` below.
 */
module OptotuneCrc {
  import opened Common
  import IntBytes

  /** The default `polynomial` argument of `_init_crc_table`. */
  const POLYNOMIAL: nat := 0xA001

  /** 2^n. */
  function Pow2(n: nat): (p: nat)
    ensures p >= 1
  {
    if n == 0 then 1 else 2 * Pow2(n - 1)
  }

  /** Python's `a ^ b` on non-negative integers, one bit at a time from the bottom. */
  function Xor(a: nat, b: nat): nat
    decreases a + b
  {
    if a == 0 && b == 0 then 0 else 2 * Xor(a / 2, b / 2) + (a + b) % 2
  }

  /** `ctypes.c_ushort(x).value`: the low 16 bits. */
  function Ushort(x: int): (r: nat)
    ensures r < 0x10000
    ensures 0 <= x < 0x10000 ==> r == x
  {
    x % 0x10000
  }

  /** One round of the table builder's inner loop: shift right, XOR the polynomial if bit 0 was set. */
  function Round(crc: nat, polynomial: nat): nat {
    if crc % 2 == 1 then Xor(Ushort(crc / 2), polynomial) else Ushort(crc / 2)
  }

  /** `k` rounds applied to `crc`. */
  function Rounds(crc: nat, k: nat, polynomial: nat): nat {
    if k == 0 then crc else Round(Rounds(crc, k - 1, polynomial), polynomial)
  }

  /** Bit-by-bit CRC-16/ARC update with one byte: XOR it in, then eight rounds. */
  function UpdateBitwise(crc: nat, d: byte): nat {
    Rounds(Xor(crc, d), 8, POLYNOMIAL)
  }

  /** Bit-by-bit CRC-16/ARC of `data` (initial value 0, no final XOR). */
  function Crc16Arc(data: seq<byte>): nat {
    if data == [] then 0 else UpdateBitwise(Crc16Arc(data[..|data| - 1]), data[|data| - 1])
  }

  /** A table as `_init_crc_table` leaves it for `polynomial`. */
  ghost predicate IsCrcTable(table: seq<nat>, polynomial: nat) {
    |table| == 256 && forall i | 0 <= i < 256 :: table[i] == Rounds(i, 8, polynomial)
  }

  /** One step of the table-driven loop of `calc_crc`: `(crc >> 8) ^ table[(crc ^ d) & 0x00ff]`. */
  function UpdateByTable(table: seq<nat>, crc: nat, d: byte): nat
    requires |table| == 256
  {
    Xor(crc / 256, table[Xor(crc, d) % 256])
  }

  /** `crc.to_bytes(2, byteorder='little')` for a value that fits: the two bytes whose little-endian value is `crc`. */
  function CrcBytes(crc: nat): (r: seq<byte>)
    requires crc < 0x10000
    ensures |r| == 2
    ensures IntBytes.DecodeLE(r) == crc
    ensures r[0] == crc % 256 && r[1] == crc / 256
  {
    assert IntBytes.Pow256(2) == 0x10000 by {
      assert IntBytes.Pow256(1) == 256 * IntBytes.Pow256(0);
    }
    IntBytes.DecodeEncodeLE(crc, 2);
    IntBytes.EncodeLE(crc, 2)
  }

  /** `_init_crc_table(polynomial)`: 256 entries, entry i being eight reflected rounds from i. */
  method InitCrcTable(polynomial: nat) returns (table: seq<nat>)
    ensures IsCrcTable(table, polynomial)
  {
    table := [];
    var i := 0;
    while i < 256
      invariant 0 <= i <= 256 && |table| == i
      invariant forall k | 0 <= k < i :: table[k] == Rounds(k, 8, polynomial)
    {
      var crc := Ushort(i);
      var j := 0;
      while j < 8
        invariant 0 <= j <= 8
        invariant crc == Rounds(i, j, polynomial)
      {
        if crc % 2 == 1 {
          crc := Xor(Ushort(crc / 2), polynomial);
        } else {
          crc := Ushort(crc / 2);
        }
        j := j + 1;
      }
      table := table + [crc];
      i := i + 1;
    }
  }

  // ---------------------------------------------------------------------
  // Xor

  lemma {:induction false} XorZero(a: nat)
    ensures Xor(a, 0) == a && Xor(0, a) == a
  {
    if a != 0 {
      XorZero(a / 2);
    }
  }

  lemma {:induction false} XorSelf(a: nat)
    ensures Xor(a, a) == 0
  {
    if a != 0 {
      XorSelf(a / 2);
    }
  }

  lemma {:induction false} XorComm(a: nat, b: nat)
    ensures Xor(a, b) == Xor(b, a)
    decreases a + b
  {
    if a != 0 || b != 0 {
      XorComm(a / 2, b / 2);
    }
  }

  /** The two halves of the definition, for any arguments. */
  lemma XorBits(a: nat, b: nat)
    ensures Xor(a, b) % 2 == (a + b) % 2
    ensures Xor(a, b) / 2 == Xor(a / 2, b / 2)
  {
    if a == 0 && b == 0 {
      XorZero(0);
    } else {
      var h, r := Xor(a / 2, b / 2), (a + b) % 2;
      assert Xor(a, b) == 2 * h + r;
      HalfOf(h, r);
    }
  }

  lemma HalfOf(h: nat, r: nat)
    requires r < 2
    ensures (2 * h + r) % 2 == r && (2 * h + r) / 2 == h
  {
  }

  /** Two integers with the same lowest bit and the same upper bits are equal. */
  lemma SameBits(x: nat, y: nat)
    requires x % 2 == y % 2 && x / 2 == y / 2
    ensures x == y
  {
  }

  lemma XorAssocHalves(a: nat, b: nat, c: nat)
    requires Xor(Xor(a / 2, b / 2), c / 2) == Xor(a / 2, Xor(b / 2, c / 2))
    ensures Xor(Xor(a, b), c) / 2 == Xor(a, Xor(b, c)) / 2
  {
    XorBits(a, b);
    XorBits(b, c);
    XorBits(Xor(a, b), c);
    XorBits(a, Xor(b, c));
  }

  lemma ParityChain(a: nat, b: nat, c: nat, ab: nat, bc: nat, l: nat, r: nat)
    requires ab % 2 == (a + b) % 2 && bc % 2 == (b + c) % 2
    requires l % 2 == (ab + c) % 2 && r % 2 == (a + bc) % 2
    ensures l % 2 == r % 2
  {
  }

  lemma XorAssocParity(a: nat, b: nat, c: nat)
    ensures Xor(Xor(a, b), c) % 2 == Xor(a, Xor(b, c)) % 2
  {
    var ab, bc := Xor(a, b), Xor(b, c);
    XorBits(a, b);
    XorBits(b, c);
    XorBits(ab, c);
    XorBits(a, bc);
    ParityChain(a, b, c, ab, bc, Xor(ab, c), Xor(a, bc));
  }

  lemma {:induction false} XorAssoc(a: nat, b: nat, c: nat)
    ensures Xor(Xor(a, b), c) == Xor(a, Xor(b, c))
    decreases a + b + c
  {
    if a + b + c != 0 {
      XorAssoc(a / 2, b / 2, c / 2);
      XorAssocHalves(a, b, c);
      XorAssocParity(a, b, c);
      SameBits(Xor(Xor(a, b), c), Xor(a, Xor(b, c)));
    } else {
      XorZero(0);
    }
  }

  lemma {:induction false} XorBound(a: nat, b: nat, n: nat)
    requires a < Pow2(n) && b < Pow2(n)
    ensures Xor(a, b) < Pow2(n)
  {
    if n == 0 {
      XorZero(0);
    } else {
      XorBits(a, b);
      XorBound(a / 2, b / 2, n - 1);
    }
  }

  lemma Pow2Of16()
    ensures Pow2(8) == 256 && Pow2(16) == 0x10000
  {
    assert Pow2(8) == 256 by {
      assert Pow2(4) == 16 by {
        assert Pow2(2) == 4;
      }
    }
  }

  lemma Xor16(a: nat, b: nat)
    requires a < 0x10000 && b < 0x10000
    ensures Xor(a, b) < 0x10000
  {
    Pow2Of16();
    XorBound(a, b, 16);
  }

  lemma Pow2Mul(a: nat, n: nat)
    requires n > 0
    ensures a * Pow2(n) == 2 * (a * Pow2(n - 1))
  {
  }

  lemma Pow2Double(q: nat, k: nat)
    requires k > 0
    ensures q * Pow2(k) == (2 * q) * Pow2(k - 1)
  {
  }

  /** XOR with a value below 2^n shifted up by n bits is addition. */
  lemma {:induction false} XorShifted(a: nat, b: nat, n: nat)
    requires b < Pow2(n)
    ensures Xor(a * Pow2(n), b) == a * Pow2(n) + b
  {
    if n == 0 {
      XorZero(a);
    } else {
      var x, h := a * Pow2(n), a * Pow2(n - 1);
      Pow2Mul(a, n);
      XorBits(x, b);
      HalfOf(h, 0);
      XorShifted(a, b / 2, n - 1);
      ShiftStep(x, h, b, Xor(x, b));
    }
  }

  lemma ShiftStep(x: nat, h: nat, b: nat, y: nat)
    requires x == 2 * h && y % 2 == (x + b) % 2 && y / 2 == h + b / 2
    ensures y == x + b
  {
  }

  /** `(a ^ b) >> 1 == (a >> 1) ^ (b >> 1)`, eight times over. */
  lemma XorHighByte(a: nat, b: nat)
    requires b < 256
    ensures Xor(a, b) / 256 == a / 256
  {
    var a1, b1 := a / 2, b / 2;
    var a2, b2 := a1 / 2, b1 / 2;
    var a3, b3 := a2 / 2, b2 / 2;
    var a4, b4 := a3 / 2, b3 / 2;
    var a5, b5 := a4 / 2, b4 / 2;
    var a6, b6 := a5 / 2, b5 / 2;
    var a7, b7 := a6 / 2, b6 / 2;
    var a8, b8 := a7 / 2, b7 / 2;
    XorBits(a, b);
    XorBits(a1, b1);
    XorBits(a2, b2);
    XorBits(a3, b3);
    XorBits(a4, b4);
    XorBits(a5, b5);
    XorBits(a6, b6);
    XorBits(a7, b7);
    assert b8 == 0 && a8 == a / 256;
    XorZero(a8);
    var x := Xor(a, b);
    assert x / 256 == x / 2 / 2 / 2 / 2 / 2 / 2 / 2 / 2;
  }

  // ---------------------------------------------------------------------
  // Rounds are linear over Xor

  /** Below 2^16 the c_ushort truncation of a round changes nothing. */
  lemma RoundSmall(crc: nat, polynomial: nat)
    requires crc < 0x10000
    ensures Round(crc, polynomial) == if crc % 2 == 1 then Xor(crc / 2, polynomial) else crc / 2
  {
  }

  lemma RoundBound(crc: nat, polynomial: nat)
    requires crc < 0x10000 && polynomial < 0x10000
    ensures Round(crc, polynomial) < 0x10000
  {
    if crc % 2 == 1 {
      Xor16(crc / 2, polynomial);
    }
  }

  lemma {:induction false} RoundsBound(crc: nat, k: nat, polynomial: nat)
    requires crc < 0x10000 && polynomial < 0x10000
    ensures Rounds(crc, k, polynomial) < 0x10000
  {
    if k > 0 {
      RoundsBound(crc, k - 1, polynomial);
      RoundBound(Rounds(crc, k - 1, polynomial), polynomial);
    }
  }

  /** `(x ^ p) ^ (y ^ p) == x ^ y`. */
  lemma XorCancel(x: nat, y: nat, p: nat)
    ensures Xor(Xor(x, p), Xor(y, p)) == Xor(x, y)
  {
    XorAssoc(x, p, Xor(y, p));
    XorComm(y, p);
    XorAssoc(p, p, y);
    XorSelf(p);
    XorZero(y);
  }

  /** `(x ^ p) ^ y == (x ^ y) ^ p`. */
  lemma XorSwap(x: nat, y: nat, p: nat)
    ensures Xor(Xor(x, p), y) == Xor(Xor(x, y), p)
  {
    XorAssoc(x, p, y);
    XorComm(p, y);
    XorAssoc(x, y, p);
  }

  lemma RoundLinearBothOdd(a: nat, b: nat, polynomial: nat)
    requires a < 0x10000 && b < 0x10000 && a % 2 == 1 && b % 2 == 1
    ensures Round(Xor(a, b), polynomial) == Xor(Round(a, polynomial), Round(b, polynomial))
  {
    var x := Xor(a, b);
    Xor16(a, b);
    XorBits(a, b);
    RoundSmall(x, polynomial);
    assert Round(x, polynomial) == Xor(a / 2, b / 2);
    RoundSmall(a, polynomial);
    RoundSmall(b, polynomial);
    XorCancel(a / 2, b / 2, polynomial);
  }

  lemma RoundLinearOddEven(a: nat, b: nat, polynomial: nat)
    requires a < 0x10000 && b < 0x10000 && a % 2 == 1 && b % 2 == 0
    ensures Round(Xor(a, b), polynomial) == Xor(Round(a, polynomial), Round(b, polynomial))
  {
    var x := Xor(a, b);
    Xor16(a, b);
    XorBits(a, b);
    RoundSmall(x, polynomial);
    assert Round(x, polynomial) == Xor(Xor(a / 2, b / 2), polynomial);
    RoundSmall(a, polynomial);
    RoundSmall(b, polynomial);
    XorSwap(a / 2, b / 2, polynomial);
  }

  lemma RoundLinearBothEven(a: nat, b: nat, polynomial: nat)
    requires a < 0x10000 && b < 0x10000 && a % 2 == 0 && b % 2 == 0
    ensures Round(Xor(a, b), polynomial) == Xor(Round(a, polynomial), Round(b, polynomial))
  {
    var x := Xor(a, b);
    Xor16(a, b);
    XorBits(a, b);
    RoundSmall(x, polynomial);
    RoundSmall(a, polynomial);
    RoundSmall(b, polynomial);
  }

  /** A round is linear over XOR: the polynomial term cancels when both inputs are odd. */
  lemma RoundLinear(a: nat, b: nat, polynomial: nat)
    requires a < 0x10000 && b < 0x10000
    ensures Round(Xor(a, b), polynomial) == Xor(Round(a, polynomial), Round(b, polynomial))
  {
    if a % 2 == 1 && b % 2 == 1 {
      RoundLinearBothOdd(a, b, polynomial);
    } else if a % 2 == 1 {
      RoundLinearOddEven(a, b, polynomial);
    } else if b % 2 == 1 {
      RoundLinearOddEven(b, a, polynomial);
      XorComm(a, b);
      XorComm(Round(a, polynomial), Round(b, polynomial));
    } else {
      RoundLinearBothEven(a, b, polynomial);
    }
  }

  lemma {:induction false} RoundsLinear(a: nat, b: nat, k: nat, polynomial: nat)
    requires a < 0x10000 && b < 0x10000 && polynomial < 0x10000
    ensures Rounds(Xor(a, b), k, polynomial) == Xor(Rounds(a, k, polynomial), Rounds(b, k, polynomial))
  {
    if k > 0 {
      RoundsLinear(a, b, k - 1, polynomial);
      RoundsBound(a, k - 1, polynomial);
      RoundsBound(b, k - 1, polynomial);
      RoundLinear(Rounds(a, k - 1, polynomial), Rounds(b, k - 1, polynomial), polynomial);
    }
  }

  /** A value whose low k bits are clear only shifts during k rounds. */
  lemma {:induction false} RoundsShift(q: nat, k: nat, polynomial: nat)
    requires q * Pow2(k) < 0x10000
    ensures Rounds(q * Pow2(k), k, polynomial) == q
    decreases k
  {
    if k > 0 {
      Pow2Double(q, k);
      RoundsShift(2 * q, k - 1, polynomial);
      HalfOf(q, 0);
      RoundSmall(2 * q, polynomial);
    }
  }

  /** The table identity behind `calc_crc`: eight rounds of x are its high byte XOR the table entry of its low byte. */
  lemma TableSplit(x: nat)
    requires x < 0x10000
    ensures Rounds(x, 8, POLYNOMIAL) == Xor(x / 256, Rounds(x % 256, 8, POLYNOMIAL))
  {
    Pow2Of16();
    var h := x / 256;
    XorShifted(h, x % 256, 8);
    assert x == Xor(h * 256, x % 256);
    RoundsLinear(h * 256, x % 256, 8, POLYNOMIAL);
    RoundsShift(h, 8, POLYNOMIAL);
  }

  /** One table-driven step equals one bit-by-bit byte update. */
  lemma UpdateByTableIsBitwise(table: seq<nat>, crc: nat, d: byte)
    requires IsCrcTable(table, POLYNOMIAL)
    requires crc < 0x10000
    ensures UpdateByTable(table, crc, d) == UpdateBitwise(crc, d)
  {
    var tmp := Xor(crc, d);
    Xor16(crc, d);
    XorHighByte(crc, d);
    TableSplit(tmp);
  }

  /** The running CRC stays a 16-bit value. */
  lemma UpdateBitwiseBound(crc: nat, d: byte)
    requires crc < 0x10000
    ensures UpdateBitwise(crc, d) < 0x10000
  {
    Xor16(crc, d);
    RoundsBound(Xor(crc, d), 8, POLYNOMIAL);
  }

  lemma {:induction false} Crc16ArcBound(data: seq<byte>)
    ensures Crc16Arc(data) < 0x10000
  {
    if data != [] {
      Crc16ArcBound(data[..|data| - 1]);
      UpdateBitwiseBound(Crc16Arc(data[..|data| - 1]), data[|data| - 1]);
    }
  }

  /** `calc_crc` over a table built by `InitCrcTable(POLYNOMIAL)`: the bit-by-bit CRC-16/ARC, low byte first. */
  method CalcCrc(table: seq<nat>, data: seq<byte>) returns (r: seq<byte>)
    requires IsCrcTable(table, POLYNOMIAL)
    ensures Crc16Arc(data) < 0x10000
    ensures r == CrcBytes(Crc16Arc(data))
  {
    var crc := 0;
    var i := 0;
    while i < |data|
      invariant 0 <= i <= |data|
      invariant crc == Crc16Arc(data[..i])
      invariant crc < 0x10000
    {
      UpdateByTableIsBitwise(table, crc, data[i]);
      UpdateBitwiseBound(crc, data[i]);
      assert data[..i + 1][..i] == data[..i];
      crc := UpdateByTable(table, crc, data[i]);
      i := i + 1;
    }
    assert data[..i] == data;
    r := CrcBytes(crc);
  }

  /** The empty message has CRC 00 00. */
  lemma EmptyCrc()
    ensures CrcBytes(Crc16Arc([])) == [0, 0]
  {
  }
}
