// The Windows-1252 code page as Python's `windows-1252` codec defines it, and
// `convert_string_to_cp1252_bytes` of io_scene_psk_psa/shared/helpers.py,
// which encodes bone and material names with it.
module Cp1252 {
  import opened Bytes
  import opened Wrappers

  /**
   * The code point that a byte 0x80 to 0x9F stands for, or -1 for the five
   * bytes the code page leaves undefined (0x81, 0x8D, 0x8F, 0x90, 0x9D).
   */
  function HighCodePoint(b: int): (u: int)
    ensures u == -1 || 0x100 <= u < 0x2200
  {
    if b == 0x80 then 0x20AC
    else if b == 0x82 then 0x201A
    else if b == 0x83 then 0x0192
    else if b == 0x84 then 0x201E
    else if b == 0x85 then 0x2026
    else if b == 0x86 then 0x2020
    else if b == 0x87 then 0x2021
    else if b == 0x88 then 0x02C6
    else if b == 0x89 then 0x2030
    else if b == 0x8A then 0x0160
    else if b == 0x8B then 0x2039
    else if b == 0x8C then 0x0152
    else if b == 0x8E then 0x017D
    else if b == 0x91 then 0x2018
    else if b == 0x92 then 0x2019
    else if b == 0x93 then 0x201C
    else if b == 0x94 then 0x201D
    else if b == 0x95 then 0x2022
    else if b == 0x96 then 0x2013
    else if b == 0x97 then 0x2014
    else if b == 0x98 then 0x02DC
    else if b == 0x99 then 0x2122
    else if b == 0x9A then 0x0161
    else if b == 0x9B then 0x203A
    else if b == 0x9C then 0x0153
    else if b == 0x9E then 0x017E
    else if b == 0x9F then 0x0178
    else -1
  }

  /** The byte of 0x80 to 0x9F that stands for code point u, or -1 when none does. */
  function HighByte(u: int): (b: int)
    ensures b == -1 || 0x80 <= b < 0xA0
  {
    if u == 0x20AC then 0x80
    else if u == 0x201A then 0x82
    else if u == 0x0192 then 0x83
    else if u == 0x201E then 0x84
    else if u == 0x2026 then 0x85
    else if u == 0x2020 then 0x86
    else if u == 0x2021 then 0x87
    else if u == 0x02C6 then 0x88
    else if u == 0x2030 then 0x89
    else if u == 0x0160 then 0x8A
    else if u == 0x2039 then 0x8B
    else if u == 0x0152 then 0x8C
    else if u == 0x017D then 0x8E
    else if u == 0x2018 then 0x91
    else if u == 0x2019 then 0x92
    else if u == 0x201C then 0x93
    else if u == 0x201D then 0x94
    else if u == 0x2022 then 0x95
    else if u == 0x2013 then 0x96
    else if u == 0x2014 then 0x97
    else if u == 0x02DC then 0x98
    else if u == 0x2122 then 0x99
    else if u == 0x0161 then 0x9A
    else if u == 0x203A then 0x9B
    else if u == 0x0153 then 0x9C
    else if u == 0x017E then 0x9E
    else if u == 0x0178 then 0x9F
    else -1
  }

  /** The two tables are inverse to each other. */
  lemma HighTablesInverse(b: int, u: int)
    ensures HighCodePoint(b) == u && u != -1 ==> HighByte(u) == b
    ensures HighByte(u) == b && b != -1 ==> HighCodePoint(b) == u
  {
  }

  /**
   * The byte a character encodes to: code points below 0x80 and from 0xA0
   * to 0xFF are their own byte, 27 others come from the table, and every
   * other character has no encoding.
   */
  function EncodeChar(c: char): (r: Option<Byte>)
    ensures (c as int < 0x80 || 0xA0 <= c as int < 0x100) ==> r == Some(c as int)
    ensures 0x80 <= c as int < 0xA0 ==> r.None?
  {
    var u := c as int;
    if u < 0x80 || (0xA0 <= u < 0x100) then Some(u)
    else
      var b := HighByte(u);
      if b == -1 then None else Some(b)
  }

  /** The character a byte decodes to, None for the five undefined bytes. */
  function DecodeByte(b: Byte): (r: Option<char>)
  {
    if b < 0x80 || b >= 0xA0 then Some(b as char)
    else
      var u := HighCodePoint(b);
      if u == -1 then None else Some(u as char)
  }

  /** Decoding an encoded character gives it back. */
  lemma DecodeEncodeChar(c: char)
    ensures EncodeChar(c).Some? ==> DecodeByte(EncodeChar(c).value) == Some(c)
  {
    var u := c as int;
    if !(u < 0x80 || (0xA0 <= u < 0x100)) && HighByte(u) != -1 {
      HighTablesInverse(HighByte(u), u);
    }
  }

  /** Encoding a decoded byte gives it back. */
  lemma EncodeDecodeByte(b: Byte)
    ensures DecodeByte(b).Some? ==> EncodeChar(DecodeByte(b).value) == Some(b)
  {
    if 0x80 <= b < 0xA0 && HighCodePoint(b) != -1 {
      HighTablesInverse(b, HighCodePoint(b));
    }
  }

  /** Exactly the five bytes 0x81, 0x8D, 0x8F, 0x90 and 0x9D decode to nothing. */
  lemma UndefinedBytes(b: Byte)
    ensures DecodeByte(b).None? <==> b in {0x81, 0x8D, 0x8F, 0x90, 0x9D}
  {
  }

  /** A character is encodable exactly when some byte decodes to it. */
  lemma EncodableIff(c: char)
    ensures EncodeChar(c).Some? <==> exists b: Byte :: DecodeByte(b) == Some(c)
  {
    DecodeEncodeChar(c);
    if exists b: Byte :: DecodeByte(b) == Some(c) {
      var b: Byte :| DecodeByte(b) == Some(c);
      EncodeDecodeByte(b);
    }
  }

  /** Whether every character of s has a Windows-1252 byte. */
  predicate Encodable(s: string)
  {
    forall i :: 0 <= i < |s| ==> EncodeChar(s[i]).Some?
  }

  /**
   * `convert_string_to_cp1252_bytes`: one byte per character, or
   * RuntimeError as soon as some character has no byte in the code page.
   */
  function ConvertStringToCp1252Bytes(s: string): (r: Result<seq<Byte>>)
    ensures r.Ok? <==> Encodable(s)
    ensures r.Err? ==> r.error.RuntimeError?
    ensures r.Ok? ==> |r.value| == |s| && forall i :: 0 <= i < |s| ==> EncodeChar(s[i]) == Some(r.value[i])
  {
    match EncodeAll(s)
    case Some(bytes) => Ok(bytes)
    case None => Err(RuntimeError("The string \"" + s + "\" contains characters that cannot be encoded in the Windows-1252 codepage"))
  }

  function EncodeAll(s: string): (r: Option<seq<Byte>>)
    ensures r.Some? <==> Encodable(s)
    ensures r.Some? ==> |r.value| == |s| && forall i :: 0 <= i < |s| ==> EncodeChar(s[i]) == Some(r.value[i])
  {
    if s == [] then Some([])
    else match (EncodeChar(s[0]), EncodeAll(s[1..]))
      case (Some(b), Some(rest)) =>
        assert forall i :: 1 <= i < |s| ==> s[i] == s[1..][i - 1];
        Some([b] + rest)
      case (None, _) => None
      case (Some(_), None) =>
        assert !Encodable(s) by {
          var i :| 0 <= i < |s[1..]| && EncodeChar(s[1..][i]).None?;
          assert s[i + 1] == s[1..][i];
        }
        None
  }

  /** `bytes.decode('windows-1252')`: None when a byte is undefined. */
  function DecodeBytes(bytes: seq<Byte>): (r: Option<string>)
    ensures r.Some? ==> |r.value| == |bytes| && forall i :: 0 <= i < |bytes| ==> DecodeByte(bytes[i]) == Some(r.value[i])
  {
    if bytes == [] then Some([])
    else match (DecodeByte(bytes[0]), DecodeBytes(bytes[1..]))
      case (Some(c), Some(rest)) => Some([c] + rest)
      case _ => None
  }

  /** The encoded bytes of a string decode back to the string. */
  lemma {:induction false} DecodeConverted(s: string)
    requires ConvertStringToCp1252Bytes(s).Ok?
    ensures DecodeBytes(ConvertStringToCp1252Bytes(s).value) == Some(s)
  {
    DecodeEncodedString(s, ConvertStringToCp1252Bytes(s).value);
  }

  lemma {:induction false} DecodeEncodedString(s: string, bytes: seq<Byte>)
    requires |bytes| == |s| && forall i :: 0 <= i < |s| ==> EncodeChar(s[i]) == Some(bytes[i])
    ensures DecodeBytes(bytes) == Some(s)
  {
    if s != [] {
      DecodeEncodeChar(s[0]);
      assert forall i :: 0 <= i < |s[1..]| ==> s[1..][i] == s[i + 1] && bytes[1..][i] == bytes[i + 1];
      DecodeEncodedString(s[1..], bytes[1..]);
      assert s == [s[0]] + s[1..];
    }
  }

  /** Names made of ASCII characters always encode, byte for byte. */
  lemma AsciiEncodes(s: string)
    requires forall i :: 0 <= i < |s| ==> s[i] as int < 0x80
    ensures ConvertStringToCp1252Bytes(s).Ok?
    ensures forall i :: 0 <= i < |s| ==> ConvertStringToCp1252Bytes(s).value[i] == s[i] as int
  {
  }
}
