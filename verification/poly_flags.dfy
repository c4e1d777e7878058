// The material flag codec of io_scene_psk_psa/psk/properties.py: a triangle
// type (low nibble) and a set of bit flags (bits 4 to 7) packed into the
// `poly_flags` field of a PSK material, and unpacked again on import.
module PolyFlags {
  import opened Wrappers

  /** The identifiers of `mesh_triangle_types_items`. */
  const TRIANGLE_TYPES: set<string> :=
    {"NORMAL", "NORMAL_TWO_SIDED", "TRANSLUCENT", "MASKED", "MODULATE", "PLACEHOLDER"}

  /** The identifiers of `mesh_triangle_bit_flags_items`. */
  const BIT_FLAGS: set<string> := {"UNLIT", "FLAT", "ENVIRONMENT", "NO_SMOOTH"}

  /** `mesh_triangle_types_items_dict.get(name, 0)`. */
  function TriangleTypeValue(name: string): (v: bv8)
    ensures name !in TRIANGLE_TYPES ==> v == 0
  {
    if name == "NORMAL" then 0
    else if name == "NORMAL_TWO_SIDED" then 1
    else if name == "TRANSLUCENT" then 2
    else if name == "MASKED" then 3
    else if name == "MODULATE" then 4
    else if name == "PLACEHOLDER" then 8
    else 0
  }

  /** `mesh_triangle_bit_flags_items_dict.get(name, 0)`. */
  function BitFlagValue(name: string): (v: bv8)
    ensures name !in BIT_FLAGS ==> v == 0
  {
    if name == "UNLIT" then 16
    else if name == "FLAT" then 32
    else if name == "ENVIRONMENT" then 64
    else if name == "NO_SMOOTH" then 128
    else 0
  }

  /** The OR of the values of the listed flags that are in the set. */
  function FlagBits(flags: set<string>): (b: bv8)
    ensures b & 15 == 0
  {
    (if "UNLIT" in flags then 16 else 0) | (if "FLAT" in flags then 32 else 0)
    | (if "ENVIRONMENT" in flags then 64 else 0) | (if "NO_SMOOTH" in flags then 128 else 0)
  }

  /**
   * The poly flags of a triangle type and a set of flag names: the type's
   * value OR every listed flag's value; names the tables do not list
   * contribute nothing.
   */
  function PolyFlagsOf(triangleType: string, bitFlags: set<string>): (r: int)
    ensures 0 <= r < 0x100
  {
    EncodeBits(triangleType, bitFlags) as int
  }

  function EncodeBits(triangleType: string, bitFlags: set<string>): bv8
  {
    TriangleTypeValue(triangleType) | FlagBits(bitFlags)
  }

  /**
   * `triangle_type_and_bit_flags_to_poly_flags`: start from the type's value
   * and OR in each flag of the set, in whatever order the set yields them.
   */
  method TriangleTypeAndBitFlagsToPolyFlags(triangleType: string, bitFlags: set<string>)
    returns (polyFlags: int)
    ensures polyFlags == PolyFlagsOf(triangleType, bitFlags)
  {
    var acc: bv8 := 0;
    acc := acc | TriangleTypeValue(triangleType);
    var rest := bitFlags;
    while rest != {}
      invariant rest <= bitFlags
      invariant acc == EncodeBits(triangleType, bitFlags - rest)
      decreases |rest|
    {
      var flag :| flag in rest;
      EncodeBitsAdd(triangleType, bitFlags - rest, flag);
      MoveOne(bitFlags, rest, flag);
      acc := acc | BitFlagValue(flag);
      rest := rest - {flag};
    }
    assert bitFlags - rest == bitFlags;
    polyFlags := acc as int;
  }

  /** Adding one name to the set ORs that name's value into the encoding. */
  lemma EncodeBitsAdd(triangleType: string, flags: set<string>, flag: string)
    ensures EncodeBits(triangleType, flags + {flag}) == EncodeBits(triangleType, flags) | BitFlagValue(flag)
  {
    FlagBitsAdd(flags, flag);
  }

  /** Moving one name from the names left to the names done. */
  lemma MoveOne(all: set<string>, rest: set<string>, flag: string)
    requires flag in rest && rest <= all
    ensures all - rest + {flag} == all - (rest - {flag})
  {
  }

  /** Adding one name to the set ORs in that name's value. */
  lemma FlagBitsAdd(flags: set<string>, flag: string)
    ensures FlagBits(flags + {flag}) == FlagBits(flags) | BitFlagValue(flag)
  {
  }

  /**
   * The bits of a poly flags value that decoding looks at. The field is a
   * signed 32-bit integer; Python's `&` on a negative value sees its two's
   * complement bits, which are those of its remainder modulo 256 for the
   * eight bits used here.
   */
  function LowByte(x: int): bv8
  {
    (x % 0x100) as bv8
  }

  /** The low byte of an encoded value is the encoding. */
  lemma LowByteOfByte(b: bv8)
    ensures LowByte(b as int) == b
  {
    ByteAsInt(b);
  }

  lemma ByteAsInt(b: bv8)
    ensures (b as int) as bv8 == b
  {
  }

  /**
   * `next(item[0] for item in mesh_triangle_types_items if item[3] == v)`,
   * None where the generator raises StopIteration.
   */
  function TypeWithValue(v: bv8): (r: Option<string>)
    ensures r.Some? ==> r.value in TRIANGLE_TYPES && TriangleTypeValue(r.value) == v
    ensures r.None? ==> forall t :: t in TRIANGLE_TYPES ==> TriangleTypeValue(t) != v
  {
    if v == 0 then Some("NORMAL")
    else if v == 1 then Some("NORMAL_TWO_SIDED")
    else if v == 2 then Some("TRANSLUCENT")
    else if v == 3 then Some("MASKED")
    else if v == 4 then Some("MODULATE")
    else if v == 8 then Some("PLACEHOLDER")
    else None
  }

  /** `{item[0] for item in mesh_triangle_bit_flags_items if item[3] & bits}`. */
  function FlagsSet(bits: bv8): (r: set<string>)
    ensures r <= BIT_FLAGS
    ensures forall n :: n in BIT_FLAGS ==> (n in r <==> BitFlagValue(n) & bits != 0)
  {
    (if bits & 16 != 0 then {"UNLIT"} else {}) + (if bits & 32 != 0 then {"FLAT"} else {})
    + (if bits & 64 != 0 then {"ENVIRONMENT"} else {}) + (if bits & 128 != 0 then {"NO_SMOOTH"} else {})
  }

  /**
   * `poly_flags_to_triangle_type_and_bit_flags`: the first type whose value
   * is the low nibble (NORMAL when none is), and the flags whose bit is set.
   */
  function PolyFlagsToTriangleTypeAndBitFlags(polyFlags: int): (r: (string, set<string>))
    ensures r.0 in TRIANGLE_TYPES && r.1 <= BIT_FLAGS
    ensures TypeWithValue(LowByte(polyFlags) & 15).None? ==> r.0 == "NORMAL"
  {
    DecodeBits(LowByte(polyFlags))
  }

  function DecodeBits(bits: bv8): (string, set<string>)
  {
    var t := match TypeWithValue(bits & 15)
      case Some(name) => name
      case None => "NORMAL";
    (t, FlagsSet(bits))
  }

  /** Decoding the flags of a listed type and a set of listed flags gives them back. */
  lemma RoundTrip(t: string, flags: set<string>)
    requires t in TRIANGLE_TYPES && flags <= BIT_FLAGS
    ensures PolyFlagsToTriangleTypeAndBitFlags(PolyFlagsOf(t, flags)) == (t, flags)
  {
    LowByteOfByte(EncodeBits(t, flags));
    DecodeEncodeBits(t, flags);
  }

  lemma DecodeEncodeBits(t: string, flags: set<string>)
    requires t in TRIANGLE_TYPES && flags <= BIT_FLAGS
    ensures DecodeBits(EncodeBits(t, flags)) == (t, flags)
  {
    var bits := EncodeBits(t, flags);
    assert bits & 15 == TriangleTypeValue(t);
    assert FlagsSet(bits) == flags;
  }

  /**
   * Encoding a decoded value keeps bits 4 to 7 and keeps the low nibble
   * only when it is a listed type value; any other nibble becomes 0 (NORMAL).
   */
  lemma ReEncode(polyFlags: int)
    ensures var (t, flags) := PolyFlagsToTriangleTypeAndBitFlags(polyFlags);
      var bits := LowByte(polyFlags);
      var low := bits & 15;
      LowByte(PolyFlagsOf(t, flags)) == (bits & 0xF0) | (if TypeWithValue(low).Some? then low else 0)
  {
    var (t, flags) := PolyFlagsToTriangleTypeAndBitFlags(polyFlags);
    LowByteOfByte(EncodeBits(t, flags));
    EncodeDecodeBits(LowByte(polyFlags));
  }

  lemma EncodeDecodeBits(bits: bv8)
    ensures var (t, flags) := DecodeBits(bits);
      EncodeBits(t, flags) == (bits & 0xF0) | (if TypeWithValue(bits & 15).Some? then bits & 15 else 0)
  {
    var (t, flags) := DecodeBits(bits);
    assert FlagBits(flags) == bits & 0xF0;
  }

  /** Type names and flag names that the tables do not list add nothing to the flags. */
  lemma UnknownNamesIgnored(t: string, flags: set<string>)
    ensures PolyFlagsOf(t, flags) == PolyFlagsOf(if t in TRIANGLE_TYPES then t else "NORMAL", flags * BIT_FLAGS)
  {
  }

  /** `should_import_mesh_get`: the `components` choices that bring in the mesh. */
  predicate ShouldImportMesh(components: string)
  {
    components in {"ALL", "MESH"}
  }

  /** `should_import_skleton_get`: the choices that bring in the armature. */
  predicate ShouldImportSkeleton(components: string)
  {
    components in {"ALL", "ARMATURE"}
  }

  /** 'ALL' imports both, 'MESH' only the mesh, 'ARMATURE' only the armature. */
  lemma ComponentsChoice(components: string)
    requires components in {"ALL", "MESH", "ARMATURE"}
    ensures ShouldImportMesh(components) <==> components != "ARMATURE"
    ensures ShouldImportSkeleton(components) <==> components != "MESH"
  {
  }
}
