/**
 * Shared vocabulary for the instrument modules: bytes, optional values and
 * error results, Python's slice semantics and Python's int() on a float.
 */
module Common {

  /** One octet on a serial line or in a packed structure. */
  type byte = b: int | 0 <= b < 256

  datatype Option<+T> = None | Some(value: T)

  /** A value, or the exception the Python code would raise instead. */
  datatype Result<+T, +E> = Ok(value: T) | Err(error: E)

  /** A value in one of the drivers' `config` dictionaries. */
  datatype ConfigValue = Num(num: real) | Text(text: string) | Flag(flag: bool) | Shape(rows: int, cols: int)

  /** Python's normalisation of a slice bound `i` against a length `n`. */
  function ClampIndex(i: int, n: nat): (k: nat)
    ensures k <= n
    ensures 0 <= i <= n ==> k == i
    ensures i < 0 && 0 <= i + n ==> k == i + n
    ensures i + n < 0 ==> k == 0
    ensures i > n ==> k == n
  {
    if i < 0 then (if i + n < 0 then 0 else i + n)
    else if i > n then n
    else i
  }

  /** Python's `s[i:j]`: negative bounds count from the end, bounds are clamped. */
  function Slice<T>(s: seq<T>, i: int, j: int): (r: seq<T>)
    ensures |r| <= |s|
    ensures 0 <= i <= j <= |s| ==> r == s[i..j]
    ensures 0 <= i + |s| && i <= j < 0 ==> r == s[|s| + i .. |s| + j]
  {
    var a, b := ClampIndex(i, |s|), ClampIndex(j, |s|);
    if a <= b then s[a..b] else []
  }

  /** Python's `int(x)` on a float: truncation toward zero. */
  function TruncToInt(x: real): (r: int)
    ensures 0.0 <= x ==> r as real <= x < r as real + 1.0
    ensures x < 0.0 ==> r as real - 1.0 < x <= r as real
  {
    if x >= 0.0 then x.Floor else -((-x).Floor)
  }

  /** A Python bytes literal such as `b'MwSA'`, written with its ASCII characters. */
  function Bytes(s: string): (r: seq<byte>)
    requires forall i | 0 <= i < |s| :: s[i] as int < 256
    ensures |r| == |s|
    ensures forall i | 0 <= i < |s| :: r[i] == s[i] as int
  {
    if s == [] then [] else [s[0] as int] + Bytes(s[1..])
  }
}
