/**
 * Python's integer <-> bytes conversions as used by the serial drivers:
 * `int.to_bytes(n, order, signed=...)`, `int.from_bytes(b, order, signed=...)`
 * and `struct.pack("<l", x)` (which is `to_bytes(4, 'little', signed=True)`
 * with a different exception name).
 */
module IntBytes {
  import opened Common

  datatype ByteOrder = Big | Little

  function Pow256(n: nat): (p: nat)
    ensures p >= 1
  {
    if n == 0 then 1 else 256 * Pow256(n - 1)
  }

  lemma HalfPow256(n: nat)
    ensures n > 0 ==> Pow256(n) == 2 * (Pow256(n) / 2)
  {
  }

  /** Unsigned value of big-endian bytes (most significant byte first). */
  function DecodeBE(s: seq<byte>): (v: nat)
    ensures v < Pow256(|s|)
  {
    if s == [] then 0 else DecodeBE(s[..|s| - 1]) * 256 + s[|s| - 1]
  }

  /** Unsigned value of little-endian bytes (least significant byte first). */
  function DecodeLE(s: seq<byte>): (v: nat)
    ensures v < Pow256(|s|)
  {
    if s == [] then 0 else s[0] + 256 * DecodeLE(s[1..])
  }

  function EncodeBE(x: nat, n: nat): (s: seq<byte>)
    requires x < Pow256(n)
    ensures |s| == n
  {
    if n == 0 then [] else EncodeBE(x / 256, n - 1) + [x % 256]
  }

  function EncodeLE(x: nat, n: nat): (s: seq<byte>)
    requires x < Pow256(n)
    ensures |s| == n
  {
    if n == 0 then [] else [x % 256] + EncodeLE(x / 256, n - 1)
  }

  /** The integers `int.to_bytes(n, ..., signed)` accepts without OverflowError. */
  predicate Representable(x: int, n: nat, signed: bool) {
    if !signed then 0 <= x < Pow256(n)
    else if n == 0 then x == 0
    else -(Pow256(n) / 2) <= x < Pow256(n) / 2
  }

  function Unsigned(s: seq<byte>, order: ByteOrder): (v: nat)
    ensures v < Pow256(|s|)
  {
    match order
    case Big => DecodeBE(s)
    case Little => DecodeLE(s)
  }

  /** `int.from_bytes(s, order, signed=signed)`; two's complement when signed. */
  function FromBytes(s: seq<byte>, order: ByteOrder, signed: bool): (v: int)
    ensures Representable(v, |s|, signed)
    ensures !signed ==> v == Unsigned(s, order)
    ensures v == Unsigned(s, order) || v == Unsigned(s, order) - Pow256(|s|)
  {
    var u := Unsigned(s, order);
    HalfPow256(|s|);
    if signed && |s| > 0 && u >= Pow256(|s|) / 2 then u - Pow256(|s|) else u
  }

  /** `x.to_bytes(n, order, signed=signed)`; None where Python raises OverflowError. */
  function ToBytes(x: int, n: nat, order: ByteOrder, signed: bool): (r: Option<seq<byte>>)
    ensures r.Some? <==> Representable(x, n, signed)
    ensures r.Some? ==> |r.value| == n
  {
    if !Representable(x, n, signed) then None
    else
      var u := if x < 0 then x + Pow256(n) else x;
      match order
      case Big => Some(EncodeBE(u, n))
      case Little => Some(EncodeLE(u, n))
  }

  lemma {:induction false} DecodeEncodeBE(x: nat, n: nat)
    requires x < Pow256(n)
    ensures DecodeBE(EncodeBE(x, n)) == x
  {
    if n > 0 {
      var s := EncodeBE(x, n);
      assert s[..|s| - 1] == EncodeBE(x / 256, n - 1);
      DecodeEncodeBE(x / 256, n - 1);
    }
  }

  lemma {:induction false} DecodeEncodeLE(x: nat, n: nat)
    requires x < Pow256(n)
    ensures DecodeLE(EncodeLE(x, n)) == x
  {
    if n > 0 {
      var s := EncodeLE(x, n);
      assert s[1..] == EncodeLE(x / 256, n - 1);
      DecodeEncodeLE(x / 256, n - 1);
    }
  }

  lemma {:induction false} EncodeDecodeBE(s: seq<byte>)
    ensures EncodeBE(DecodeBE(s), |s|) == s
  {
    if s != [] {
      var init := s[..|s| - 1];
      var v := DecodeBE(s);
      assert v / 256 == DecodeBE(init) && v % 256 == s[|s| - 1];
      EncodeDecodeBE(init);
      assert s == init + [s[|s| - 1]];
    }
  }

  lemma {:induction false} EncodeDecodeLE(s: seq<byte>)
    ensures EncodeLE(DecodeLE(s), |s|) == s
  {
    if s != [] {
      var v := DecodeLE(s);
      assert v / 256 == DecodeLE(s[1..]) && v % 256 == s[0];
      EncodeDecodeLE(s[1..]);
      assert s == [s[0]] + s[1..];
    }
  }

  /** Decoding what was encoded gives the integer back, for every representable integer. */
  lemma FromBytesToBytes(x: int, n: nat, order: ByteOrder, signed: bool)
    requires Representable(x, n, signed)
    ensures ToBytes(x, n, order, signed).Some?
    ensures FromBytes(ToBytes(x, n, order, signed).value, order, signed) == x
  {
    var u := if x < 0 then x + Pow256(n) else x;
    match order
    case Big => DecodeEncodeBE(u, n);
    case Little => DecodeEncodeLE(u, n);
  }

  /** Encoding what was decoded gives the same bytes back. */
  lemma ToBytesFromBytes(s: seq<byte>, order: ByteOrder, signed: bool)
    ensures ToBytes(FromBytes(s, order, signed), |s|, order, signed) == Some(s)
  {
    match order
    case Big => EncodeDecodeBE(s);
    case Little => EncodeDecodeLE(s);
  }
}
