/**
 * Property bookkeeping of the Hamamatsu DCAM wrapper: name normalisation,
 * decoding of a property's attribute word, the range clamp and text lookup
 * of `setPropertyValue`, and the ordering of text options.
 *
 * What the vendor library reports (attribute words, value ranges, raw
 * values, the text options of a property) is passed in.
 */
module CameraProperties {
  import opened Common

  // ---------------------------------------------------------------------
  // convertPropertyName

  /** `str.lower()` on one character, for ASCII letters. */
  function LowerAscii(c: char): (r: char)
    ensures 'A' <= c <= 'Z' ==> r as int == c as int + 32
    ensures !('A' <= c <= 'Z') ==> r == c
  {
    if 'A' <= c <= 'Z' then (c as int + 32) as char else c
  }

  /** `p_name.lower().replace(" ", "_")`. */
  function ConvertPropertyName(name: string): (r: string)
    ensures |r| == |name|
    ensures forall i | 0 <= i < |name| :: r[i] == if name[i] == ' ' then '_' else LowerAscii(name[i])
  {
    if name == [] then []
    else [if name[0] == ' ' then '_' else LowerAscii(name[0])] + ConvertPropertyName(name[1..])
  }

  /** A normalised name has no spaces and no upper-case ASCII letters. */
  lemma ConvertedIsNormal(name: string)
    ensures forall i | 0 <= i < |name| ::
      ConvertPropertyName(name)[i] != ' ' && !('A' <= ConvertPropertyName(name)[i] <= 'Z')
  {
  }

  /** Normalising twice is normalising once. */
  lemma {:induction false} ConvertIdempotent(name: string)
    ensures ConvertPropertyName(ConvertPropertyName(name)) == ConvertPropertyName(name)
  {
    if name != [] {
      var r := ConvertPropertyName(name);
      ConvertIdempotent(name[1..]);
      assert r[1..] == ConvertPropertyName(name[1..]);
    }
  }

  // ---------------------------------------------------------------------
  // Attribute words

  /** The attribute word is a C int32; Python's `&` sees it in two's complement. */
  const ATTR_READABLE: int := 0x0001_0000
  const ATTR_WRITABLE: int := 0x0002_0000
  const TYPE_MASK: int := 0xF

  /** `attr & bit != 0` for a single-bit mask; Dafny's `/` floors like Python's on a positive divisor. */
  function HasFlag(attr: int, bit: int): bool
    requires bit > 0
  {
    (attr / bit) % 2 == 1
  }

  /** `getPropertyRW`: [readable, writeable]. */
  function GetPropertyRW(attr: int): (rw: seq<bool>)
    ensures |rw| == 2
  {
    [HasFlag(attr, ATTR_READABLE), HasFlag(attr, ATTR_WRITABLE)]
  }

  /** One step of the bit decomposition below. */
  lemma DivStep(a: int, d: int, q: int, r: int)
    requires d > 0 && 0 <= r < d && a == q * d + r
    ensures a / d == q
  {
    var k := a / d - q;
    assert k * d == r - a % d by {
      assert a == d * (a / d) + a % d;
    }
    MulNonZero(k, d);
  }

  /** A non-zero multiple of d is at least d away from zero. */
  lemma MulNonZero(k: int, d: int)
    requires d > 0
    ensures k >= 1 ==> k * d >= d
    ensures k <= -1 ==> k * d <= -d
  {
    if k >= 1 {
      MulAtLeast(k, d);
    } else if k <= -1 {
      MulAtLeast(-k, d);
    }
  }

  lemma MulAtLeast(k: int, d: int)
    requires k >= 1 && d > 0
    ensures k * d >= d
  {
  }

  /** An attribute word assembled from higher bits, the two flags and 16 low bits reads back as those two flags. */
  lemma RWFromFields(high: int, writable: bool, readable: bool, low: int)
    requires 0 <= low < 0x1_0000
    ensures GetPropertyRW(high * 0x4_0000 + (if writable then 0x2_0000 else 0) + (if readable then 0x1_0000 else 0) + low)
      == [readable, writable]
  {
    var w := if writable then 1 else 0;
    var r := if readable then 1 else 0;
    var attr := high * 0x4_0000 + w * 0x2_0000 + r * 0x1_0000 + low;
    DivStep(attr, 0x1_0000, high * 4 + w * 2 + r, low);
    DivStep(attr, 0x2_0000, high * 2 + w, r * 0x1_0000 + low);
    assert (high * 4 + w * 2 + r) % 2 == r;
    assert (high * 2 + w) % 2 == w;
  }

  /** The property types `getPropertyValue` distinguishes by the low four bits. */
  datatype PropType = Mode | Long | Real | NoType

  /** A property value as `getPropertyValue` returns it. */
  datatype PropValue = IntValue(i: int) | RealValue(r: real) | BoolValue(b: bool)

  /** The type dispatch on `attr & 0xF`: MODE, LONG and REAL are bit patterns 0001, 0010 and 0011 of the four low bits. */
  function PropertyType(attr: int): (t: PropType)
    ensures t == Mode <==> HasFlag(attr, 1) && !HasFlag(attr, 2) && !HasFlag(attr, 4) && !HasFlag(attr, 8)
    ensures t == Long <==> !HasFlag(attr, 1) && HasFlag(attr, 2) && !HasFlag(attr, 4) && !HasFlag(attr, 8)
    ensures t == Real <==> HasFlag(attr, 1) && HasFlag(attr, 2) && !HasFlag(attr, 4) && !HasFlag(attr, 8)
  {
    LowNibbleBits(attr);
    var t := attr % (TYPE_MASK + 1);
    if t == 1 then Mode else if t == 2 then Long else if t == 3 then Real else NoType
  }

  /** `attr & 0xF` is the sum of the four low bits, for negative words too. */
  lemma LowNibbleBits(attr: int)
    ensures attr % 16 == (if HasFlag(attr, 1) then 1 else 0) + (if HasFlag(attr, 2) then 2 else 0)
      + (if HasFlag(attr, 4) then 4 else 0) + (if HasFlag(attr, 8) then 8 else 0)
  {
    NibbleBit(attr, 1);
    NibbleBit(attr, 2);
    NibbleBit(attr, 4);
    NibbleBit(attr, 8);
    NibbleSum(attr % 16);
  }

  /** Bits 0 to 3 of a word are those of its remainder mod 16. */
  lemma NibbleBit(attr: int, d: int)
    requires d == 1 || d == 2 || d == 4 || d == 8
    ensures (attr / d) % 2 == ((attr % 16) / d) % 2
  {
    var q, m := attr / 16, attr % 16;
    assert attr == 16 * q + m;
    NibbleBitOf(attr, q, m, d);
  }

  lemma NibbleBitOf(attr: int, q: int, m: int, d: int)
    requires d == 1 || d == 2 || d == 4 || d == 8
    requires 0 <= m < 16 && attr == 16 * q + m
    ensures (attr / d) % 2 == (m / d) % 2
  {
    var k := 8 / d;
    assert k * d == 8;
    DivStep(attr, d, 2 * (k * q) + m / d, m % d);
    EvenShift(k * q, m / d);
  }

  lemma EvenShift(a: int, b: int)
    ensures (2 * a + b) % 2 == b % 2
  {
  }

  lemma NibbleSum(m: int)
    requires 0 <= m < 16
    ensures m == m % 2 + 2 * ((m / 2) % 2) + 4 * ((m / 4) % 2) + 8 * ((m / 8) % 2)
  {
  }

  /**
   * `getPropertyValue`: `None` for an unknown name (Python returns False);
   * otherwise the raw double converted according to the type.
   */
  function GetPropertyValue(properties: map<string, int>, name: string, attr: int, raw: real)
    : (r: Option<(PropValue, PropType)>)
    ensures r.None? <==> name !in properties
    ensures r.Some? ==> r.value.1 == PropertyType(attr)
  {
    if name !in properties then None
    else
      var t := PropertyType(attr);
      match t
      case Mode => Some((IntValue(TruncToInt(raw)), t))
      case Long => Some((IntValue(TruncToInt(raw)), t))
      case Real => Some((RealValue(raw), t))
      case NoType => Some((BoolValue(false), t))
  }

  /** Only the low nibble decides the type: 1, 2 and 3 are MODE, LONG and REAL, every other nibble NONE with value False. */
  lemma TypeDispatch(properties: map<string, int>, name: string, high: int, nibble: int, raw: real)
    requires name in properties && 0 <= nibble < 16
    ensures PropertyType(high * 16 + nibble) == PropertyType(nibble)
    ensures nibble == 1 ==> GetPropertyValue(properties, name, high * 16 + nibble, raw) == Some((IntValue(TruncToInt(raw)), Mode))
    ensures nibble == 2 ==> GetPropertyValue(properties, name, high * 16 + nibble, raw) == Some((IntValue(TruncToInt(raw)), Long))
    ensures nibble == 3 ==> GetPropertyValue(properties, name, high * 16 + nibble, raw) == Some((RealValue(raw), Real))
    ensures !(1 <= nibble <= 3) ==> GetPropertyValue(properties, name, high * 16 + nibble, raw) == Some((BoolValue(false), NoType))
  {
    assert (high * 16 + nibble) % 16 == nibble;
  }

  // ---------------------------------------------------------------------
  // setPropertyValue

  /** The range check of `setPropertyValue`: raise to the minimum, then lower to the maximum. */
  function ClampToRange(v: real, lo: real, hi: real): (r: real)
    ensures lo <= hi ==> lo <= r <= hi
    ensures lo <= v <= hi ==> r == v
  {
    var raised := if v < lo then lo else v;
    if raised > hi then hi else raised
  }

  /** Within a non-empty range the clamp picks the point nearest to the request. */
  lemma ClampNearest(v: real, lo: real, hi: real, x: real)
    requires lo <= x <= hi
    ensures var r := ClampToRange(v, lo, hi);
      (if r >= v then r - v else v - r) <= (if x >= v then x - v else v - x)
  {
  }

  /** The clamp never reverses the order of two requests. */
  lemma ClampMonotone(v1: real, v2: real, lo: real, hi: real)
    requires v1 <= v2
    ensures ClampToRange(v1, lo, hi) <= ClampToRange(v2, lo, hi)
  {
  }

  /** The value handed to `setPropertyValue`: a number or a text option. */
  datatype PropertyInput = TextInput(text: string) | NumberInput(x: real)

  /**
   * The decisions of `setPropertyValue`: None where it returns False (an
   * unknown property, an unknown text option); otherwise the property id and
   * the value sent to the device.
   */
  function SetPropertyRequest(properties: map<string, int>, name: string, value: PropertyInput,
                              textOptions: map<string, int>, lo: real, hi: real): (r: Option<(int, real)>)
    ensures r.None? <==> name !in properties || (value.TextInput? && value.text !in textOptions)
    ensures r.Some? ==> r.value.0 == properties[name]
    ensures r.Some? && lo <= hi ==> lo <= r.value.1 <= hi
  {
    if name !in properties then None
    else match value
      case TextInput(t) =>
        if t in textOptions then Some((properties[name], ClampToRange(textOptions[t] as real, lo, hi))) else None
      case NumberInput(x) => Some((properties[name], ClampToRange(x, lo, hi)))
  }

  /** A known property and an in-range request reach the device unchanged; a known text option sends its number. */
  lemma SetPropertyPassThrough(properties: map<string, int>, name: string, value: PropertyInput,
                               textOptions: map<string, int>, lo: real, hi: real)
    requires name in properties
    requires value.TextInput? ==> value.text in textOptions
    ensures var requested := if value.TextInput? then textOptions[value.text] as real else value.x;
      lo <= requested <= hi ==> SetPropertyRequest(properties, name, value, textOptions, lo, hi) == Some((properties[name], requested))
  {
  }

  // ---------------------------------------------------------------------
  // sortedPropertyTextOptions

  /** The keys of a text-option dictionary, in insertion order. */
  function Keys(options: seq<(string, int)>): (ks: seq<string>)
    ensures |ks| == |options|
    ensures forall i | 0 <= i < |options| :: ks[i] == options[i].0
  {
    if options == [] then [] else [options[0].0] + Keys(options[1..])
  }

  /** A Python dict: no key occurs twice. */
  predicate DistinctKeys(options: seq<(string, int)>) {
    forall i, j | 0 <= i < j < |options| :: options[i].0 != options[j].0
  }

  predicate SortedByValue(s: seq<(string, int)>) {
    forall i, j | 0 <= i < j < |s| :: s[i].1 <= s[j].1
  }

  /** Inserts `x` before the first entry whose value is not smaller, keeping equal values in their order. */
  function InsertByValue(x: (string, int), s: seq<(string, int)>): (r: seq<(string, int)>)
    requires SortedByValue(s)
    ensures SortedByValue(r)
    ensures multiset(r) == multiset(s) + multiset{x}
  {
    if s == [] || x.1 <= s[0].1 then [x] + s
    else
      var rest := InsertByValue(x, s[1..]);
      InsertBehind(x, s, rest);
      [s[0]] + rest
  }

  /** Putting the head of `s` in front of `x` inserted into the tail keeps the order and the entries. */
  lemma InsertBehind(x: (string, int), s: seq<(string, int)>, rest: seq<(string, int)>)
    requires s != [] && s[0].1 < x.1 && SortedByValue(s) && SortedByValue(rest)
    requires multiset(rest) == multiset(s[1..]) + multiset{x}
    ensures SortedByValue([s[0]] + rest)
    ensures multiset([s[0]] + rest) == multiset(s) + multiset{x}
  {
    assert s == [s[0]] + s[1..];
    forall p | p in rest
      ensures s[0].1 <= p.1
    {
      assert p in multiset(rest);
      if p != x {
        assert p in multiset(s[1..]);
        assert p in s[1..];
      }
    }
  }

  /** A stable sort of the entries by value. */
  function SortByValue(s: seq<(string, int)>): (r: seq<(string, int)>)
    ensures SortedByValue(r)
    ensures multiset(r) == multiset(s)
    ensures |r| == |s|
  {
    if s == [] then []
    else
      assert s == [s[0]] + s[1..];
      InsertByValue(s[0], SortByValue(s[1..]))
  }

  /** `sorted(text_values, key=text_values.get)`. */
  function SortedTextOptions(options: seq<(string, int)>): (r: seq<string>)
    ensures |r| == |options|
  {
    Keys(SortByValue(options))
  }

  /** The value a dictionary holds for a key. */
  function Lookup(options: seq<(string, int)>, key: string): int
    requires key in Keys(options)
  {
    if options[0].0 == key then options[0].1 else Lookup(options[1..], key)
  }

  lemma {:induction false} LookupEntry(options: seq<(string, int)>, i: nat)
    requires DistinctKeys(options) && i < |options|
    ensures options[i].0 in Keys(options)
    ensures Lookup(options, options[i].0) == options[i].1
  {
    if i > 0 {
      LookupEntry(options[1..], i - 1);
      assert options[1..][i - 1] == options[i];
    }
  }

  /** Entry multisets that agree give key multisets that agree. */
  lemma {:induction false} KeysMultiset(s: seq<(string, int)>, t: seq<(string, int)>)
    requires multiset(s) == multiset(t)
    ensures multiset(Keys(s)) == multiset(Keys(t))
    decreases |s|
  {
    if s == [] {
      assert |t| == |multiset(t)| == 0;
    } else {
      assert s[0] in multiset(t);
      var j :| 0 <= j < |t| && t[j] == s[0];
      RemoveEntry(t, j);
      TailMultiset(s, t, j);
      KeysMultiset(s[1..], t[..j] + t[j + 1..]);
      ConsKeys(s, t, j);
    }
  }

  lemma TailMultiset(s: seq<(string, int)>, t: seq<(string, int)>, j: nat)
    requires s != [] && j < |t| && t[j] == s[0] && multiset(s) == multiset(t)
    requires multiset(t[..j] + t[j + 1..]) == multiset(t) - multiset{t[j]}
    ensures multiset(s[1..]) == multiset(t[..j] + t[j + 1..])
  {
    assert s == [s[0]] + s[1..];
    assert multiset(s[1..]) == multiset(s) - multiset{s[0]};
  }

  lemma ConsKeys(s: seq<(string, int)>, t: seq<(string, int)>, j: nat)
    requires s != [] && j < |t| && t[j] == s[0]
    requires multiset(Keys(t[..j] + t[j + 1..])) == multiset(Keys(t)) - multiset{t[j].0}
    requires multiset(Keys(s[1..])) == multiset(Keys(t[..j] + t[j + 1..]))
    ensures multiset(Keys(s)) == multiset(Keys(t))
  {
    assert Keys(s) == [s[0].0] + Keys(s[1..]);
    assert Keys(t)[j] == s[0].0;
    MultisetCons(s[0].0, Keys(s[1..]), Keys(t), j);
  }

  lemma MultisetCons<T>(x: T, rest: seq<T>, whole: seq<T>, j: nat)
    requires j < |whole| && whole[j] == x
    requires multiset(rest) == multiset(whole) - multiset{x}
    ensures multiset([x] + rest) == multiset(whole)
  {
    assert x in multiset(whole);
  }

  /** Removing entry j removes one entry and its key. */
  lemma RemoveEntry(t: seq<(string, int)>, j: nat)
    requires j < |t|
    ensures multiset(t[..j] + t[j + 1..]) == multiset(t) - multiset{t[j]}
    ensures multiset(Keys(t[..j] + t[j + 1..])) == multiset(Keys(t)) - multiset{t[j].0}
  {
    SplitAt(t, j);
    MultisetRemove(t[..j], t[j], t[j + 1..]);
    RemoveKey(t, j);
  }

  lemma RemoveKey(t: seq<(string, int)>, j: nat)
    requires j < |t|
    ensures multiset(Keys(t[..j] + t[j + 1..])) == multiset(Keys(t)) - multiset{t[j].0}
  {
    var ks := Keys(t);
    SplitAt(ks, j);
    KeysDropOne(t, j);
    MultisetRemove(ks[..j], ks[j], ks[j + 1..]);
  }

  lemma KeysDropOne(t: seq<(string, int)>, j: nat)
    requires j < |t|
    ensures Keys(t[..j] + t[j + 1..]) == Keys(t)[..j] + Keys(t)[j + 1..]
  {
    var u := t[..j] + t[j + 1..];
    var ks := Keys(t);
    var kd := ks[..j] + ks[j + 1..];
    assert |Keys(u)| == |kd|;
    forall i | 0 <= i < |u|
      ensures Keys(u)[i] == kd[i]
    {
      if i < j {
        assert u[i] == t[i] && kd[i] == ks[i];
      } else {
        assert u[i] == t[i + 1] && kd[i] == ks[i + 1];
      }
    }
  }

  lemma SplitAt<T>(t: seq<T>, j: nat)
    requires j < |t|
    ensures t == t[..j] + [t[j]] + t[j + 1..]
  {
  }

  lemma MultisetRemove<T>(a: seq<T>, x: T, b: seq<T>)
    ensures multiset(a + b) == multiset(a + [x] + b) - multiset{x}
  {
    assert multiset(a + [x] + b) == multiset(a) + multiset{x} + multiset(b);
    assert multiset(a + b) == multiset(a) + multiset(b);
  }

  /**
   * The sorted option names are a permutation of the dictionary's keys, in
   * non-decreasing order of their values.
   */
  lemma SortedTextOptionsSpec(options: seq<(string, int)>)
    requires DistinctKeys(options)
    ensures multiset(SortedTextOptions(options)) == multiset(Keys(options))
    ensures forall i | 0 <= i < |options| :: SortedTextOptions(options)[i] in Keys(options)
    ensures forall i, j | 0 <= i < j < |options| ::
      Lookup(options, SortedTextOptions(options)[i]) <= Lookup(options, SortedTextOptions(options)[j])
  {
    var s := SortByValue(options);
    var r := SortedTextOptions(options);
    KeysMultiset(s, options);
    forall i | 0 <= i < |options|
      ensures r[i] in Keys(options) && Lookup(options, r[i]) == s[i].1
    {
      assert s[i] in multiset(options);
      var k :| 0 <= k < |options| && options[k] == s[i];
      LookupEntry(options, k);
    }
  }
}
