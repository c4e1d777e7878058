// Byte-level building blocks of the ctypes records: little-endian integers
// of the fixed widths ctypes uses, opaque 32-bit floats and fixed-width
// `c_char` arrays.
module Bytes {

  type Byte = x: int | 0 <= x < 0x100

  type UInt8 = x: int | 0 <= x < 0x100
  type Int8 = x: int | -0x80 <= x < 0x80
  type UInt16 = x: int | 0 <= x < 0x1_0000
  type Int16 = x: int | -0x8000 <= x < 0x8000
  type UInt32 = x: int | 0 <= x < 0x1_0000_0000
  type Int32 = x: int | -0x8000_0000 <= x < 0x8000_0000

  function Pow256(n: nat): (r: nat)
    ensures r >= 1
  {
    if n == 0 then 1 else 256 * Pow256(n - 1)
  }

  /** The n-byte little-endian representation of x (x below 256^n). */
  function LittleEndian(x: nat, n: nat): (r: seq<Byte>)
    ensures |r| == n
  {
    if n == 0 then [] else [x % 256] + LittleEndian(x / 256, n - 1)
  }

  /** The unsigned value of a little-endian byte string. */
  function FromLittleEndian(s: seq<Byte>): (r: nat)
    ensures r < Pow256(|s|)
  {
    if s == [] then 0 else s[0] + 256 * FromLittleEndian(s[1..])
  }

  lemma {:induction false} FromLittleEndianOfLittleEndian(x: nat, n: nat)
    requires x < Pow256(n)
    ensures FromLittleEndian(LittleEndian(x, n)) == x
  {
    if n > 0 {
      FromLittleEndianOfLittleEndian(x / 256, n - 1);
      assert LittleEndian(x, n)[1..] == LittleEndian(x / 256, n - 1);
    }
  }

  lemma {:induction false} LittleEndianOfFromLittleEndian(s: seq<Byte>)
    ensures LittleEndian(FromLittleEndian(s), |s|) == s
  {
    if s != [] {
      var v := FromLittleEndian(s);
      assert v % 256 == s[0] && v / 256 == FromLittleEndian(s[1..]);
      LittleEndianOfFromLittleEndian(s[1..]);
    }
  }

  /** The ctypes integer field types used by the PSK and PSA records. */
  datatype IntType = U8 | I8 | U16 | I16 | U32 | I32
  {
    function Size(): nat
    {
      match this
      case U8 => 1 case I8 => 1 case U16 => 2 case I16 => 2 case U32 => 4 case I32 => 4
    }

    predicate Signed() { I8? || I16? || I32? }

    /** 2^(8 * Size()), written out per width. */
    function Modulus(): (m: nat)
      ensures m == Pow256(Size())
    {
      match this
      case U8 => 0x100 case I8 => 0x100
      case U16 => 0x1_0000 case I16 => 0x1_0000
      case U32 => assert Pow256(2) == 0x1_0000; 0x1_0000_0000
      case I32 => assert Pow256(2) == 0x1_0000; 0x1_0000_0000
    }

    predicate InRange(x: int)
    {
      var m := Modulus();
      if Signed() then -(m / 2) <= x < m / 2 else 0 <= x < m
    }

    /**
     * The value a field of this type holds after a Python int is assigned
     * to it: ctypes keeps the low bits and reads them back with the sign.
     */
    function Wrap(x: int): (r: int)
      ensures InRange(r)
      ensures InRange(x) ==> r == x
    {
      var m := Modulus();
      var u := x % m;
      if Signed() && u >= m / 2 then u - m else u
    }

    function Encode(x: int): (r: seq<Byte>)
      requires InRange(x)
      ensures |r| == Size()
    {
      LittleEndian(if x < 0 then x + Modulus() else x, Size())
    }

    function Decode(s: seq<Byte>): (r: int)
      requires |s| == Size()
      ensures InRange(r)
    {
      Wrap(FromLittleEndian(s))
    }
  }

  /** A non-negative value below 2^31 is stored unchanged in a 32-bit signed field. */
  lemma WrapI32Small(x: int)
    requires 0 <= x < 0x8000_0000
    ensures I32.Wrap(x) == x
  {
    assert I32.Modulus() == 0x1_0000_0000;
    assert I32.InRange(x);
  }

  lemma DecodeEncode(t: IntType, x: int)
    requires t.InRange(x)
    ensures t.Decode(t.Encode(x)) == x
  {
    var m := t.Modulus();
    var v := if x < 0 then x + m else x;
    assert 0 <= v < m;
    FromLittleEndianOfLittleEndian(v, t.Size());
    WrapOfStored(t, v);
  }

  lemma EncodeDecode(t: IntType, s: seq<Byte>)
    requires |s| == t.Size()
    ensures t.Encode(t.Decode(s)) == s
  {
    var v := FromLittleEndian(s);
    WrapOfStored(t, v);
    LittleEndianOfFromLittleEndian(s);
  }

  /** Reading back a stored unsigned value v: signed types subtract the modulus from the upper half. */
  lemma WrapOfStored(t: IntType, v: int)
    requires 0 <= v < t.Modulus()
    ensures t.Wrap(v) == if t.Signed() && v >= t.Modulus() / 2 then v - t.Modulus() else v
  {
    ModOfSmall(v, t.Modulus());
  }

  lemma ModOfSmall(v: int, m: int)
    requires 0 <= v < m
    ensures v % m == v
  {
  }

  /** A byte string is the concatenation of its pieces between ascending cut points. */
  lemma Pieces6(s: seq<Byte>, a: nat, b: nat, c: nat, d: nat, e: nat)
    requires a <= b <= c <= d <= e <= |s|
    ensures s == s[0..a] + s[a..b] + s[b..c] + s[c..d] + s[d..e] + s[e..|s|]
  {
  }

  /** A 32-bit float, kept as its four stored bytes: only copied and compared. */
  datatype F32 = F32(b0: Byte, b1: Byte, b2: Byte, b3: Byte)

  const FLOAT_ZERO: F32 := F32(0, 0, 0, 0)
  const FLOAT_ONE: F32 := F32(0, 0, 0x80, 0x3F)

  function EncodeF32(f: F32): (r: seq<Byte>)
    ensures |r| == 4
  {
    [f.b0, f.b1, f.b2, f.b3]
  }

  function DecodeF32(s: seq<Byte>): (f: F32)
    requires |s| == 4
    ensures EncodeF32(f) == s
  {
    F32(s[0], s[1], s[2], s[3])
  }

  /** Consecutive 32-bit signed integers. */
  function EncodeI32s(xs: seq<Int32>): (r: seq<Byte>)
    ensures |r| == 4 * |xs|
  {
    if xs == [] then [] else I32.Encode(xs[0]) + EncodeI32s(xs[1..])
  }

  function DecodeI32s(s: seq<Byte>): (xs: seq<Int32>)
    requires |s| % 4 == 0
    ensures 4 * |xs| == |s|
    ensures EncodeI32s(xs) == s
  {
    if s == [] then []
    else
      EncodeDecode(I32, s[0..4]);
      assert s == s[0..4] + s[4..];
      [I32.Decode(s[0..4])] + DecodeI32s(s[4..])
  }

  lemma {:induction false} I32sRoundTrip(xs: seq<Int32>)
    ensures DecodeI32s(EncodeI32s(xs)) == xs
  {
    if xs != [] {
      var s := EncodeI32s(xs);
      assert s[0..4] == I32.Encode(xs[0]) && s[4..] == EncodeI32s(xs[1..]);
      DecodeEncode(I32, xs[0]);
      I32sRoundTrip(xs[1..]);
    }
  }

  /** Consecutive 32-bit floats. */
  function EncodeF32s(fs: seq<F32>): (r: seq<Byte>)
    ensures |r| == 4 * |fs|
  {
    if fs == [] then [] else EncodeF32(fs[0]) + EncodeF32s(fs[1..])
  }

  function DecodeF32s(s: seq<Byte>): (fs: seq<F32>)
    requires |s| % 4 == 0
    ensures 4 * |fs| == |s|
    ensures EncodeF32s(fs) == s
  {
    if s == [] then []
    else
      assert s == s[0..4] + s[4..];
      [DecodeF32(s[0..4])] + DecodeF32s(s[4..])
  }

  lemma {:induction false} F32sRoundTrip(fs: seq<F32>)
    ensures DecodeF32s(EncodeF32s(fs)) == fs
  {
    if fs != [] {
      var s := EncodeF32s(fs);
      assert s[0..4] == EncodeF32(fs[0]) && s[4..] == EncodeF32s(fs[1..]);
      F32sRoundTrip(fs[1..]);
    }
  }

  function Zeros(n: nat): (r: seq<Byte>)
    ensures |r| == n && forall i :: 0 <= i < n ==> r[i] == 0
  {
    seq(n, _ => 0)
  }

  /**
   * The Python value of a `c_char * n` field holding the bytes a: ctypes
   * returns the bytes before the first NUL.
   */
  function CharArrayValue(a: seq<Byte>): (r: seq<Byte>)
    ensures r <= a && 0 !in r
    ensures |r| < |a| ==> a[|r|] == 0
  {
    if a == [] || a[0] == 0 then [] else [a[0]] + CharArrayValue(a[1..])
  }

  /** A zero-filled `c_char * width` field after the bytes b are assigned to it. */
  function CharArray(b: seq<Byte>, width: nat): (r: seq<Byte>)
    requires |b| <= width
    ensures |r| == width && r[..|b|] == b
    ensures forall i :: |b| <= i < width ==> r[i] == 0
  {
    b + Zeros(width - |b|)
  }

  lemma {:induction false} CharArrayValueOfPrefix(b: seq<Byte>, a: seq<Byte>)
    requires b <= a && 0 !in b && (|b| < |a| ==> a[|b|] == 0)
    ensures CharArrayValue(a) == b
  {
    if b != [] {
      CharArrayValueOfPrefix(b[1..], a[1..]);
    }
  }

  /** Assigning a NUL-free name and reading it back gives the name. */
  lemma CharArrayRoundTrip(b: seq<Byte>, width: nat)
    requires |b| <= width && 0 !in b
    ensures CharArrayValue(CharArray(b, width)) == b
  {
    CharArrayValueOfPrefix(b, CharArray(b, width));
  }
}
