// `SemanticVersion` of io_scene_psk_psa/shared/semver.py: a (major, minor,
// patch) triple compared component by component.
module SemVer {

  datatype SemanticVersion = SemanticVersion(major: int, minor: int, patch: int)
  {
    /** `__iter__`: major, minor, patch. */
    function Components(): (r: seq<int>)
      ensures r == [major, minor, patch]
    {
      [major, minor, patch]
    }
  }

  /** `SemanticVersion(tuple(v))`: the constructor unpacks a 3-tuple. */
  function FromTuple(t: (int, int, int)): SemanticVersion
  {
    SemanticVersion(t.0, t.1, t.2)
  }

  function AsTuple(v: SemanticVersion): (int, int, int)
  {
    (v.major, v.minor, v.patch)
  }

  /** Rebuilding a version from its own components gives an equal version. */
  lemma FromOwnTuple(v: SemanticVersion)
    ensures Eq(FromTuple(AsTuple(v)), v) && FromTuple(AsTuple(v)) == v
  {
    CompareZero(v, v);
  }

  /**
   * `compare`'s loop over `zip(lhs, rhs)`: -1 at the first component where
   * lhs is smaller, 1 where it is larger, 0 when all are equal.
   */
  function CompareSeq(l: seq<int>, r: seq<int>): (c: int)
    ensures c in {-1, 0, 1}
  {
    if l == [] || r == [] then 0
    else if l[0] < r[0] then -1
    else if l[0] > r[0] then 1
    else CompareSeq(l[1..], r[1..])
  }

  function Compare(lhs: SemanticVersion, rhs: SemanticVersion): (c: int)
    ensures c in {-1, 0, 1}
  {
    CompareSeq(lhs.Components(), rhs.Components())
  }

  /** Lexicographic order on (major, minor, patch), written independently of the loop. */
  predicate LexLess(a: SemanticVersion, b: SemanticVersion)
  {
    a.major < b.major
    || (a.major == b.major && a.minor < b.minor)
    || (a.major == b.major && a.minor == b.minor && a.patch < b.patch)
  }

  /** `compare` returns -1, 0 or 1 according to the lexicographic order. */
  lemma CompareIsLexicographic(a: SemanticVersion, b: SemanticVersion)
    ensures Compare(a, b) == -1 <==> LexLess(a, b)
    ensures Compare(a, b) == 1 <==> LexLess(b, a)
    ensures Compare(a, b) == 0 <==> a == b
  {
    var l, r := a.Components(), b.Components();
    assert l[1..] == [a.minor, a.patch] && r[1..] == [b.minor, b.patch];
    assert l[1..][1..] == [a.patch] && r[1..][1..] == [b.patch];
    assert l[1..][1..][1..] == [] && r[1..][1..][1..] == [];
    assert CompareSeq(l[1..][1..][1..], r[1..][1..][1..]) == 0;
    var c2 := CompareSeq(l[1..][1..], r[1..][1..]);
    assert c2 == if a.patch < b.patch then -1 else if a.patch > b.patch then 1 else 0;
    var c1 := CompareSeq(l[1..], r[1..]);
    assert c1 == if a.minor < b.minor then -1 else if a.minor > b.minor then 1 else c2;
    assert Compare(a, b) == if a.major < b.major then -1 else if a.major > b.major then 1 else c1;
  }

  lemma CompareZero(a: SemanticVersion, b: SemanticVersion)
    ensures Compare(a, b) == 0 <==> a == b
  {
    CompareIsLexicographic(a, b);
  }

  /** Swapping the arguments negates the comparison. */
  lemma CompareAntisymmetric(a: SemanticVersion, b: SemanticVersion)
    ensures Compare(a, b) == -Compare(b, a)
  {
    CompareIsLexicographic(a, b);
    CompareIsLexicographic(b, a);
  }

  /** `__eq__`, `__ne__`, `__lt__`, `__le__`, `__gt__`, `__ge__`. */
  predicate Eq(a: SemanticVersion, b: SemanticVersion) { Compare(a, b) == 0 }
  predicate Ne(a: SemanticVersion, b: SemanticVersion) { !Eq(a, b) }
  predicate Lt(a: SemanticVersion, b: SemanticVersion) { Compare(a, b) == -1 }
  predicate Le(a: SemanticVersion, b: SemanticVersion) { Compare(a, b) <= 0 }
  predicate Gt(a: SemanticVersion, b: SemanticVersion) { Compare(a, b) == 1 }
  predicate Ge(a: SemanticVersion, b: SemanticVersion) { Compare(a, b) >= 0 }

  /** `__hash__`: the hash of the component tuple, an opaque function of it. */
  function Hash(v: SemanticVersion, hashTuple: ((int, int, int)) -> int): int
  {
    hashTuple(AsTuple(v))
  }

  /** `==` is equality of all three components, `!=` its negation, and equal versions hash alike. */
  lemma EqualityIsComponentwise(a: SemanticVersion, b: SemanticVersion, hashTuple: ((int, int, int)) -> int)
    ensures Eq(a, b) <==> a.major == b.major && a.minor == b.minor && a.patch == b.patch
    ensures Ne(a, b) <==> !Eq(a, b)
    ensures Eq(a, b) ==> Hash(a, hashTuple) == Hash(b, hashTuple)
  {
    CompareZero(a, b);
  }

  /**
   * The ordering operators agree with lexicographic order, and exactly one
   * of `<`, `==`, `>` holds.
   */
  lemma OrderOperators(a: SemanticVersion, b: SemanticVersion)
    ensures Lt(a, b) <==> LexLess(a, b)
    ensures Gt(a, b) <==> LexLess(b, a)
    ensures Le(a, b) <==> LexLess(a, b) || a == b
    ensures Ge(a, b) <==> LexLess(b, a) || a == b
    ensures (Lt(a, b) && !Eq(a, b) && !Gt(a, b)) || (!Lt(a, b) && Eq(a, b) && !Gt(a, b))
      || (!Lt(a, b) && !Eq(a, b) && Gt(a, b))
  {
    CompareIsLexicographic(a, b);
  }
}
