// The index logic of the PSA importer, io_scene_psk_psa/psa/importer.py:
// finding the armature bone of each PSA bone, the one-to-one mapping the
// import builds from those finds and the warnings it reports, the per-bone
// track flags, the resampling schedule and the keyframe times written.
module PsaImporter {
  import opened Wrappers
  import opened Text
  import opened PsaConfig

  // ---------------------------------------------------------------------
  // _get_armature_bone_index_for_psa_bone
  // ---------------------------------------------------------------------

  /** Whether an armature bone name matches a PSA bone name: ignoring case in CASE_INSENSITIVE mode, exactly otherwise. */
  predicate NamesMatch(armatureBoneName: string, psaBoneName: string, boneMappingMode: string)
  {
    if boneMappingMode == "CASE_INSENSITIVE" then Lower(armatureBoneName) == Lower(psaBoneName)
    else armatureBoneName == psaBoneName
  }

  /** The first armature bone whose name matches, None when none does. */
  function BoneIndexFor(psaBoneName: string, armatureBoneNames: seq<string>, boneMappingMode: string): (r: Option<nat>)
    ensures r.Some? ==> r.value < |armatureBoneNames| && NamesMatch(armatureBoneNames[r.value], psaBoneName, boneMappingMode)
    ensures r.Some? ==> forall k :: 0 <= k < r.value ==> !NamesMatch(armatureBoneNames[k], psaBoneName, boneMappingMode)
    ensures r.None? ==> forall k :: 0 <= k < |armatureBoneNames| ==> !NamesMatch(armatureBoneNames[k], psaBoneName, boneMappingMode)
  {
    if armatureBoneNames == [] then None
    else if NamesMatch(armatureBoneNames[0], psaBoneName, boneMappingMode) then Some(0)
    else
      match BoneIndexFor(psaBoneName, armatureBoneNames[1..], boneMappingMode)
      case None => None
      case Some(k) => Some(k + 1)
  }

  /** `_get_armature_bone_index_for_psa_bone`: the loop that returns at the first matching armature bone. */
  method GetArmatureBoneIndexForPsaBone(psaBoneName: string, armatureBoneNames: seq<string>, boneMappingMode: string)
    returns (r: Option<nat>)
    ensures r == BoneIndexFor(psaBoneName, armatureBoneNames, boneMappingMode)
  {
    for armatureBoneIndex := 0 to |armatureBoneNames|
      invariant forall k :: 0 <= k < armatureBoneIndex ==> !NamesMatch(armatureBoneNames[k], psaBoneName, boneMappingMode)
    {
      if NamesMatch(armatureBoneNames[armatureBoneIndex], psaBoneName, boneMappingMode) {
        FirstMatchIsBoneIndex(psaBoneName, armatureBoneNames, boneMappingMode, armatureBoneIndex);
        return Some(armatureBoneIndex);
      }
    }
    r := None;
    NoMatchIsNone(psaBoneName, armatureBoneNames, boneMappingMode);
  }

  lemma FirstMatchIsBoneIndex(psaBoneName: string, armatureBoneNames: seq<string>, boneMappingMode: string, i: nat)
    requires i < |armatureBoneNames| && NamesMatch(armatureBoneNames[i], psaBoneName, boneMappingMode)
    requires forall k :: 0 <= k < i ==> !NamesMatch(armatureBoneNames[k], psaBoneName, boneMappingMode)
    ensures BoneIndexFor(psaBoneName, armatureBoneNames, boneMappingMode) == Some(i)
  {
    var r := BoneIndexFor(psaBoneName, armatureBoneNames, boneMappingMode);
    assert r.Some?;
    assert !(r.value < i) && !(i < r.value);
  }

  lemma NoMatchIsNone(psaBoneName: string, armatureBoneNames: seq<string>, boneMappingMode: string)
    requires forall k :: 0 <= k < |armatureBoneNames| ==> !NamesMatch(armatureBoneNames[k], psaBoneName, boneMappingMode)
    ensures BoneIndexFor(psaBoneName, armatureBoneNames, boneMappingMode) == None
  {
  }

  /** Ignoring case finds a bone whenever the exact mode does, and no later one. */
  lemma CaseInsensitiveFindsExact(psaBoneName: string, armatureBoneNames: seq<string>)
    requires BoneIndexFor(psaBoneName, armatureBoneNames, "EXACT").Some?
    ensures BoneIndexFor(psaBoneName, armatureBoneNames, "CASE_INSENSITIVE").Some?
    ensures BoneIndexFor(psaBoneName, armatureBoneNames, "CASE_INSENSITIVE").value
      <= BoneIndexFor(psaBoneName, armatureBoneNames, "EXACT").value
  {
    var e := BoneIndexFor(psaBoneName, armatureBoneNames, "EXACT").value;
    assert NamesMatch(armatureBoneNames[e], psaBoneName, "CASE_INSENSITIVE");
  }

  // ---------------------------------------------------------------------
  // The PSA-to-armature bone mapping of import_psa
  // ---------------------------------------------------------------------

  /**
   * What the mapping loop builds: the two index maps, the name used for
   * each PSA bone (the armature bone's for a found bone, its own
   * otherwise), and the (PSA bone, armature bone, PSA bone already mapped
   * to it) triples of the finds that came too late.
   */
  datatype BoneMapping = BoneMapping(
    psaToArmature: map<nat, nat>,
    armatureToPsa: map<nat, nat>,
    psaBoneNames: seq<string>,
    duplicateMappings: seq<(nat, nat, nat)>)

  /** The armature bone found for each PSA bone. */
  function Finds(psaBoneNames: seq<string>, armatureBoneNames: seq<string>, boneMappingMode: string): (r: seq<Option<nat>>)
    ensures |r| == |psaBoneNames|
    ensures forall p :: 0 <= p < |r| ==> r[p] == BoneIndexFor(psaBoneNames[p], armatureBoneNames, boneMappingMode)
  {
    seq(|psaBoneNames|, p requires 0 <= p < |psaBoneNames| => BoneIndexFor(psaBoneNames[p], armatureBoneNames, boneMappingMode))
  }

  ghost predicate ValidFinds(finds: seq<Option<nat>>, armatureBoneCount: nat)
  {
    forall p :: 0 <= p < |finds| && finds[p].Some? ==> finds[p].value < armatureBoneCount
  }

  /** One pass of the mapping loop, for PSA bone p with the given find. */
  function AddBone(m: BoneMapping, p: nat, psaBoneName: string, armatureBoneNames: seq<string>, find: Option<nat>): BoneMapping
    requires find.Some? ==> find.value < |armatureBoneNames|
  {
    match find
    case None => m.(psaBoneNames := m.psaBoneNames + [psaBoneName])
    case Some(a) =>
      if a !in m.armatureToPsa then
        m.(psaToArmature := m.psaToArmature[p := a], armatureToPsa := m.armatureToPsa[a := p],
           psaBoneNames := m.psaBoneNames + [armatureBoneNames[a]])
      else
        m.(duplicateMappings := m.duplicateMappings + [(p, a, m.armatureToPsa[a])],
           psaBoneNames := m.psaBoneNames + [armatureBoneNames[a]])
  }

  /** The mapping after the loop has seen every PSA bone, bone by bone. */
  function Mapping(psaBoneNames: seq<string>, armatureBoneNames: seq<string>, finds: seq<Option<nat>>): BoneMapping
    requires |finds| == |psaBoneNames| && ValidFinds(finds, |armatureBoneNames|)
  {
    if psaBoneNames == [] then BoneMapping(map[], map[], [], [])
    else
      var n := |psaBoneNames| - 1;
      AddBone(Mapping(psaBoneNames[..n], armatureBoneNames, finds[..n]), n, psaBoneNames[n], armatureBoneNames, finds[n])
  }

  /** PSA bone p claims its armature bone: it has a find, and no earlier PSA bone found the same one. */
  predicate Claims(finds: seq<Option<nat>>, p: nat)
  {
    p < |finds| && finds[p].Some? && forall q :: 0 <= q < p ==> finds[q] != finds[p]
  }

  /** Some PSA bone found armature bone a. */
  ghost predicate Found(finds: seq<Option<nat>>, a: nat)
  {
    exists q :: 0 <= q < |finds| && finds[q] == Some(a)
  }

  lemma FoundSnoc(finds: seq<Option<nat>>)
    requires finds != []
    ensures forall a: nat :: Found(finds, a) <==> Found(finds[..|finds| - 1], a) || finds[|finds| - 1] == Some(a)
  {
    var n := |finds| - 1;
    forall a: nat ensures Found(finds, a) <==> Found(finds[..n], a) || finds[n] == Some(a) {
      if Found(finds, a) {
        var q :| 0 <= q < |finds| && finds[q] == Some(a);
        if q < n {
          assert finds[..n][q] == Some(a);
        }
      }
      if Found(finds[..n], a) {
        var q :| 0 <= q < n && finds[..n][q] == Some(a);
        assert finds[q] == Some(a);
      }
    }
  }

  lemma ClaimsOfPrefix(finds: seq<Option<nat>>, n: nat)
    requires n <= |finds|
    ensures forall p: nat :: p < n ==> Claims(finds[..n], p) == Claims(finds, p)
  {
  }

  /**
   * armatureToPsa holds exactly the armature bones some PSA bone found,
   * each mapped to the PSA bone that claims it.
   */
  lemma {:induction false} MappingBackward(psaBoneNames: seq<string>, armatureBoneNames: seq<string>, finds: seq<Option<nat>>)
    requires |finds| == |psaBoneNames| && ValidFinds(finds, |armatureBoneNames|)
    ensures var m := Mapping(psaBoneNames, armatureBoneNames, finds);
      && (forall a: nat :: a in m.armatureToPsa <==> Found(finds, a))
      && (forall a :: a in m.armatureToPsa ==> Claims(finds, m.armatureToPsa[a]) && finds[m.armatureToPsa[a]] == Some(a))
  {
    if psaBoneNames != [] {
      var n := |psaBoneNames| - 1;
      var prev := finds[..n];
      assert ValidFinds(prev, |armatureBoneNames|);
      MappingBackward(psaBoneNames[..n], armatureBoneNames, prev);
      ClaimsOfPrefix(finds, n);
      FoundSnoc(finds);
      var m0 := Mapping(psaBoneNames[..n], armatureBoneNames, prev);
      if finds[n].Some? && finds[n].value !in m0.armatureToPsa {
        assert forall q :: 0 <= q < n ==> prev[q] != finds[n];
        assert Claims(finds, n);
      }
    }
  }

  /**
   * psaToArmature holds exactly the PSA bones that claim their find, each
   * mapped to that find.
   */
  lemma {:induction false} MappingForward(psaBoneNames: seq<string>, armatureBoneNames: seq<string>, finds: seq<Option<nat>>)
    requires |finds| == |psaBoneNames| && ValidFinds(finds, |armatureBoneNames|)
    ensures var m := Mapping(psaBoneNames, armatureBoneNames, finds);
      && (forall p: nat :: p in m.psaToArmature <==> Claims(finds, p))
      && (forall p :: p in m.psaToArmature ==> Some(m.psaToArmature[p]) == finds[p])
  {
    if psaBoneNames != [] {
      var n := |psaBoneNames| - 1;
      var prev := finds[..n];
      assert ValidFinds(prev, |armatureBoneNames|);
      MappingForward(psaBoneNames[..n], armatureBoneNames, prev);
      MappingBackward(psaBoneNames[..n], armatureBoneNames, prev);
      ClaimsOfPrefix(finds, n);
      var m0 := Mapping(psaBoneNames[..n], armatureBoneNames, prev);
      if finds[n].Some? {
        if finds[n].value !in m0.armatureToPsa {
          assert forall q :: 0 <= q < n ==> prev[q] != finds[n];
          assert Claims(finds, n);
        } else {
          var q :| 0 <= q < n && prev[q] == finds[n];
          assert !Claims(finds, n);
        }
      }
    }
  }

  /**
   * The mapping is one-to-one: each armature bone is claimed by the first
   * PSA bone that finds it, and the two maps are each other's inverse.
   */
  lemma MappingIsInjective(psaBoneNames: seq<string>, armatureBoneNames: seq<string>, finds: seq<Option<nat>>)
    requires |finds| == |psaBoneNames| && ValidFinds(finds, |armatureBoneNames|)
    ensures var m := Mapping(psaBoneNames, armatureBoneNames, finds);
      && (forall p, q :: p in m.psaToArmature && q in m.psaToArmature && p != q ==> m.psaToArmature[p] != m.psaToArmature[q])
      && (forall p :: p in m.psaToArmature ==> m.psaToArmature[p] in m.armatureToPsa && m.armatureToPsa[m.psaToArmature[p]] == p)
      && (forall a :: a in m.armatureToPsa ==> m.armatureToPsa[a] in m.psaToArmature && m.psaToArmature[m.armatureToPsa[a]] == a)
  {
    var m := Mapping(psaBoneNames, armatureBoneNames, finds);
    MappingForward(psaBoneNames, armatureBoneNames, finds);
    MappingBackward(psaBoneNames, armatureBoneNames, finds);
    forall p | p in m.psaToArmature
      ensures m.psaToArmature[p] in m.armatureToPsa && m.armatureToPsa[m.psaToArmature[p]] == p
    {
      var a := m.psaToArmature[p];
      assert finds[p] == Some(a);
      var q := m.armatureToPsa[a];
      assert Claims(finds, q) && finds[q] == Some(a);
      assert !(q < p) && !(p < q);
    }
  }

  /**
   * A recorded late find (p, a, q): PSA bone p found armature bone a, which
   * PSA bone q, earlier, had already claimed.
   */
  ghost predicate LateFind(finds: seq<Option<nat>>, d: (nat, nat, nat))
  {
    && d.0 < |finds| && finds[d.0] == Some(d.1) && !Claims(finds, d.0)
    && d.2 < d.0 && Claims(finds, d.2) && finds[d.2] == Some(d.1)
  }

  /** Every duplicate the mapping records is a late find. */
  lemma {:induction false} DuplicatesAreLateFinds(psaBoneNames: seq<string>, armatureBoneNames: seq<string>, finds: seq<Option<nat>>)
    requires |finds| == |psaBoneNames| && ValidFinds(finds, |armatureBoneNames|)
    ensures forall d :: d in Mapping(psaBoneNames, armatureBoneNames, finds).duplicateMappings ==> LateFind(finds, d)
  {
    if psaBoneNames != [] {
      var n := |psaBoneNames| - 1;
      var prev := finds[..n];
      assert ValidFinds(prev, |armatureBoneNames|);
      DuplicatesAreLateFinds(psaBoneNames[..n], armatureBoneNames, prev);
      MappingBackward(psaBoneNames[..n], armatureBoneNames, prev);
      ClaimsOfPrefix(finds, n);
      var m0 := Mapping(psaBoneNames[..n], armatureBoneNames, prev);
      forall d | d in m0.duplicateMappings ensures LateFind(finds, d) {
        assert LateFind(prev, d);
      }
      if finds[n].Some? && finds[n].value in m0.armatureToPsa {
        var q := m0.armatureToPsa[finds[n].value];
        assert Claims(prev, q) && prev[q] == finds[n];
        assert !Claims(finds, n);
        assert LateFind(finds, (n, finds[n].value, q));
      }
    }
  }

  /** Every late find is recorded. */
  lemma {:induction false} LateFindsAreDuplicates(psaBoneNames: seq<string>, armatureBoneNames: seq<string>, finds: seq<Option<nat>>)
    requires |finds| == |psaBoneNames| && ValidFinds(finds, |armatureBoneNames|)
    ensures var m := Mapping(psaBoneNames, armatureBoneNames, finds);
      forall p :: 0 <= p < |finds| && finds[p].Some? && !Claims(finds, p) ==>
        exists k :: 0 <= k < |m.duplicateMappings| && m.duplicateMappings[k].0 == p
  {
    if psaBoneNames != [] {
      var n := |psaBoneNames| - 1;
      var prev := finds[..n];
      assert ValidFinds(prev, |armatureBoneNames|);
      LateFindsAreDuplicates(psaBoneNames[..n], armatureBoneNames, prev);
      ClaimsOfPrefix(finds, n);
      var m0 := Mapping(psaBoneNames[..n], armatureBoneNames, prev);
      var m := Mapping(psaBoneNames, armatureBoneNames, finds);
      assert m.duplicateMappings[..|m0.duplicateMappings|] == m0.duplicateMappings;
      forall p | 0 <= p < n && finds[p].Some? && !Claims(finds, p)
        ensures exists k :: 0 <= k < |m.duplicateMappings| && m.duplicateMappings[k].0 == p
      {
        assert prev[p] == finds[p] && !Claims(prev, p);
        var k :| 0 <= k < |m0.duplicateMappings| && m0.duplicateMappings[k].0 == p;
        assert m.duplicateMappings[k] == m0.duplicateMappings[k];
      }
      if finds[n].Some? && !Claims(finds, n) {
        LateFindIsRecorded(psaBoneNames, armatureBoneNames, finds);
        var k := |m0.duplicateMappings|;
        assert 0 <= k < |m.duplicateMappings| && m.duplicateMappings[k].0 == n;
      }
    }
  }

  lemma LateFindIsRecorded(psaBoneNames: seq<string>, armatureBoneNames: seq<string>, finds: seq<Option<nat>>)
    requires |finds| == |psaBoneNames| && ValidFinds(finds, |armatureBoneNames|)
    requires finds != [] && finds[|finds| - 1].Some? && !Claims(finds, |finds| - 1)
    ensures var n := |finds| - 1;
      var m0 := Mapping(psaBoneNames[..n], armatureBoneNames, finds[..n]);
      var m := Mapping(psaBoneNames, armatureBoneNames, finds);
      |m.duplicateMappings| == |m0.duplicateMappings| + 1 && m.duplicateMappings[|m0.duplicateMappings|].0 == n
  {
    var n := |finds| - 1;
    var prev := finds[..n];
    assert ValidFinds(prev, |armatureBoneNames|);
    MappingBackward(psaBoneNames[..n], armatureBoneNames, prev);
    var q :| 0 <= q < n && finds[q] == finds[n];
    assert prev[q] == finds[n];
  }

  /** Triples whose first components strictly increase. */
  predicate InPsaBoneOrder(duplicateMappings: seq<(nat, nat, nat)>)
  {
    forall k, l :: 0 <= k < l < |duplicateMappings| ==> duplicateMappings[k].0 < duplicateMappings[l].0
  }

  /** The recorded late finds are in PSA bone order, each PSA bone at most once. */
  lemma {:induction false} DuplicatesInOrder(psaBoneNames: seq<string>, armatureBoneNames: seq<string>, finds: seq<Option<nat>>)
    requires |finds| == |psaBoneNames| && ValidFinds(finds, |armatureBoneNames|)
    ensures InPsaBoneOrder(Mapping(psaBoneNames, armatureBoneNames, finds).duplicateMappings)
  {
    if psaBoneNames != [] {
      var n := |psaBoneNames| - 1;
      var prev := finds[..n];
      assert ValidFinds(prev, |armatureBoneNames|);
      DuplicatesInOrder(psaBoneNames[..n], armatureBoneNames, prev);
      DuplicatesAreLateFinds(psaBoneNames[..n], armatureBoneNames, prev);
      var m0 := Mapping(psaBoneNames[..n], armatureBoneNames, prev);
      var m := Mapping(psaBoneNames, armatureBoneNames, finds);
      forall k | 0 <= k < |m0.duplicateMappings| ensures m0.duplicateMappings[k].0 < n {
        assert m0.duplicateMappings[k] in m0.duplicateMappings;
        assert LateFind(prev, m0.duplicateMappings[k]);
      }
      forall k, l | 0 <= k < l < |m.duplicateMappings|
        ensures m.duplicateMappings[k].0 < m.duplicateMappings[l].0
      {
        assert m.duplicateMappings[k] == m0.duplicateMappings[k];
        if l < |m0.duplicateMappings| {
          assert m.duplicateMappings[l] == m0.duplicateMappings[l];
        } else {
          assert m.duplicateMappings == m0.duplicateMappings + [m.duplicateMappings[l]];
          assert m.duplicateMappings[l].0 == n;
        }
      }
    }
  }

  /** The names the import uses: a found bone goes by its armature bone's name, any other by its own. */
  lemma {:induction false} MappingNames(psaBoneNames: seq<string>, armatureBoneNames: seq<string>, finds: seq<Option<nat>>)
    requires |finds| == |psaBoneNames| && ValidFinds(finds, |armatureBoneNames|)
    ensures var m := Mapping(psaBoneNames, armatureBoneNames, finds);
      && |m.psaBoneNames| == |psaBoneNames|
      && forall p :: 0 <= p < |psaBoneNames| ==>
           m.psaBoneNames[p] == if finds[p].Some? then armatureBoneNames[finds[p].value] else psaBoneNames[p]
  {
    if psaBoneNames != [] {
      var n := |psaBoneNames| - 1;
      assert ValidFinds(finds[..n], |armatureBoneNames|);
      MappingNames(psaBoneNames[..n], armatureBoneNames, finds[..n]);
    }
  }

  /** `set(psa_bone_names) - set(armature_bone_names)`: the names of the missing-bone warning. */
  function MissingBoneNames(usedNames: seq<string>, armatureBoneNames: seq<string>): set<string>
  {
    set name | name in usedNames && name !in armatureBoneNames
  }

  /**
   * The missing-bone warning names exactly the PSA bones with no armature
   * bone, by their own names.
   */
  lemma MissingBonesAreUnfound(psaBoneNames: seq<string>, armatureBoneNames: seq<string>, boneMappingMode: string)
    ensures var finds := Finds(psaBoneNames, armatureBoneNames, boneMappingMode);
      var m := Mapping(psaBoneNames, armatureBoneNames, finds);
      MissingBoneNames(m.psaBoneNames, armatureBoneNames)
        == set p | 0 <= p < |psaBoneNames| && finds[p].None? :: psaBoneNames[p]
  {
    var finds := Finds(psaBoneNames, armatureBoneNames, boneMappingMode);
    MappingNames(psaBoneNames, armatureBoneNames, finds);
    UnfoundNames(psaBoneNames, armatureBoneNames, boneMappingMode, finds,
      Mapping(psaBoneNames, armatureBoneNames, finds).psaBoneNames);
  }

  /**
   * The names used for the PSA bones (the armature bone's for a found one,
   * the bone's own otherwise) that no armature bone has are the names of
   * the PSA bones with no find.
   */
  lemma UnfoundNames(psaBoneNames: seq<string>, armatureBoneNames: seq<string>, boneMappingMode: string,
                     finds: seq<Option<nat>>, used: seq<string>)
    requires |finds| == |psaBoneNames| == |used| && ValidFinds(finds, |armatureBoneNames|)
    requires forall p :: 0 <= p < |finds| ==> finds[p] == BoneIndexFor(psaBoneNames[p], armatureBoneNames, boneMappingMode)
    requires forall p :: 0 <= p < |finds| ==>
      used[p] == if finds[p].Some? then armatureBoneNames[finds[p].value] else psaBoneNames[p]
    ensures MissingBoneNames(used, armatureBoneNames) == set p | 0 <= p < |psaBoneNames| && finds[p].None? :: psaBoneNames[p]
  {
    var unfound := set p | 0 <= p < |psaBoneNames| && finds[p].None? :: psaBoneNames[p];
    assert forall p :: 0 <= p < |finds| && finds[p].Some? ==> used[p] in armatureBoneNames;
    forall name | name in MissingBoneNames(used, armatureBoneNames) ensures name in unfound {
      var p :| 0 <= p < |used| && used[p] == name;
      assert finds[p].None?;
    }
    forall name | name in unfound ensures name in MissingBoneNames(used, armatureBoneNames) {
      var p :| 0 <= p < |psaBoneNames| && finds[p].None? && psaBoneNames[p] == name;
      assert used[p] == name;
      forall k | 0 <= k < |armatureBoneNames| ensures armatureBoneNames[k] != name {
        assert !NamesMatch(armatureBoneNames[k], name, boneMappingMode);
      }
    }
  }

  /** The warnings of the bone mapping. */
  datatype Warning =
    | DuplicateMapping(psaBoneIndex: nat, psaBoneName: string, armatureBoneIndex: nat, armatureBoneName: string,
                       mappedPsaBoneIndex: nat, mappedPsaBoneName: string)
    | MissingBones(names: set<string>)
    | MissingParents(count: nat, boneNames: seq<string>)

  /**
   * The mapping loop of `import_psa`, then its warnings: one per late find,
   * and one naming the missing bones when there are any.
   */
  method MapBones(psaBoneNames: seq<string>, armatureBoneNames: seq<string>, boneMappingMode: string)
    returns (m: BoneMapping, warnings: seq<Warning>)
    ensures m == Mapping(psaBoneNames, armatureBoneNames, Finds(psaBoneNames, armatureBoneNames, boneMappingMode))
    ensures |warnings| == |m.duplicateMappings| + (if MissingBoneNames(m.psaBoneNames, armatureBoneNames) == {} then 0 else 1)
    ensures forall k :: 0 <= k < |m.duplicateMappings| ==> (
      && warnings[k].DuplicateMapping?
      && warnings[k].psaBoneIndex == m.duplicateMappings[k].0
      && warnings[k].armatureBoneIndex == m.duplicateMappings[k].1
      && warnings[k].mappedPsaBoneIndex == m.duplicateMappings[k].2)
    ensures MissingBoneNames(m.psaBoneNames, armatureBoneNames) != {} ==>
      warnings[|warnings| - 1] == MissingBones(MissingBoneNames(m.psaBoneNames, armatureBoneNames))
  {
    var finds := Finds(psaBoneNames, armatureBoneNames, boneMappingMode);
    m := BoneMapping(map[], map[], [], []);
    for psaBoneIndex := 0 to |psaBoneNames|
      invariant m == Mapping(psaBoneNames[..psaBoneIndex], armatureBoneNames, finds[..psaBoneIndex])
    {
      assert psaBoneNames[..psaBoneIndex + 1][..psaBoneIndex] == psaBoneNames[..psaBoneIndex];
      assert finds[..psaBoneIndex + 1][..psaBoneIndex] == finds[..psaBoneIndex];
      var armatureBoneIndex := GetArmatureBoneIndexForPsaBone(psaBoneNames[psaBoneIndex], armatureBoneNames, boneMappingMode);
      m := AddBone(m, psaBoneIndex, psaBoneNames[psaBoneIndex], armatureBoneNames, armatureBoneIndex);
    }
    assert psaBoneNames[..|psaBoneNames|] == psaBoneNames && finds[..|finds|] == finds;
    DuplicatesAreLateFinds(psaBoneNames, armatureBoneNames, finds);
    MappingNames(psaBoneNames, armatureBoneNames, finds);
    warnings := [];
    for k := 0 to |m.duplicateMappings|
      invariant |warnings| == k
      invariant forall j :: 0 <= j < k ==> (
        && warnings[j].DuplicateMapping?
        && warnings[j].psaBoneIndex == m.duplicateMappings[j].0
        && warnings[j].armatureBoneIndex == m.duplicateMappings[j].1
        && warnings[j].mappedPsaBoneIndex == m.duplicateMappings[j].2)
    {
      assert LateFind(finds, m.duplicateMappings[k]) by {
        assert m.duplicateMappings[k] in m.duplicateMappings;
      }
      var (psaBoneIndex, armatureBoneIndex, mappedPsaBoneIndex) := m.duplicateMappings[k];
      warnings := warnings + [DuplicateMapping(psaBoneIndex, m.psaBoneNames[psaBoneIndex], armatureBoneIndex,
        armatureBoneNames[armatureBoneIndex], mappedPsaBoneIndex, m.psaBoneNames[mappedPsaBoneIndex])];
    }
    var missingBoneNames := MissingBoneNames(m.psaBoneNames, armatureBoneNames);
    if missingBoneNames != {} {
      warnings := warnings + [MissingBones(missingBoneNames)];
    }
  }

  /**
   * Whether PSA bone p is imported (it claims an armature bone) and that
   * armature bone has a parent whose name is not among the names the
   * import uses.
   */
  predicate ParentMissing(m: BoneMapping, p: nat, armatureBoneNames: seq<string>, armatureBoneParents: seq<Option<nat>>)
  {
    && p in m.psaToArmature
    && m.psaToArmature[p] < |armatureBoneParents|
    && armatureBoneParents[m.psaToArmature[p]].Some?
    && armatureBoneParents[m.psaToArmature[p]].value < |armatureBoneNames|
    && armatureBoneNames[armatureBoneParents[m.psaToArmature[p]].value] !in m.psaBoneNames
  }

  /**
   * The PSA bones before n whose parent is missing: every such bone, once,
   * in increasing order.
   */
  function MissingParentPsaBones(m: BoneMapping, armatureBoneNames: seq<string>, armatureBoneParents: seq<Option<nat>>, n: nat): (ps: seq<nat>)
    ensures forall k :: 0 <= k < |ps| ==> ps[k] < n && ParentMissing(m, ps[k], armatureBoneNames, armatureBoneParents)
    ensures forall k, l :: 0 <= k < l < |ps| ==> ps[k] < ps[l]
    ensures forall p: nat :: p < n && ParentMissing(m, p, armatureBoneNames, armatureBoneParents) ==> p in ps
  {
    if n == 0 then []
    else
      var before := MissingParentPsaBones(m, armatureBoneNames, armatureBoneParents, n - 1);
      if ParentMissing(m, n - 1, armatureBoneNames, armatureBoneParents) then before + [n - 1] else before
  }

  /**
   * The loop over the imported bones, in PSA bone order, that collects the
   * armature bones whose parents the PSA lacks.
   */
  method BonesWithMissingParents(psaBoneCount: nat, m: BoneMapping, armatureBoneNames: seq<string>, armatureBoneParents: seq<Option<nat>>)
    returns (r: seq<nat>)
    ensures var ps := MissingParentPsaBones(m, armatureBoneNames, armatureBoneParents, psaBoneCount);
      |r| == |ps| && forall k :: 0 <= k < |ps| ==> r[k] == m.psaToArmature[ps[k]]
    ensures |r| <= psaBoneCount
    ensures forall a :: a in r <==>
      exists p: nat :: p < psaBoneCount && ParentMissing(m, p, armatureBoneNames, armatureBoneParents) && m.psaToArmature[p] == a
  {
    r := [];
    for psaBoneIndex := 0 to psaBoneCount
      invariant var ps := MissingParentPsaBones(m, armatureBoneNames, armatureBoneParents, psaBoneIndex);
        |r| == |ps| && forall k :: 0 <= k < |ps| ==> r[k] == m.psaToArmature[ps[k]]
      invariant |r| <= psaBoneIndex
    {
      if ParentMissing(m, psaBoneIndex, armatureBoneNames, armatureBoneParents) {
        r := r + [m.psaToArmature[psaBoneIndex]];
      }
    }
    MissingParentArmatureBones(m, armatureBoneNames, armatureBoneParents, psaBoneCount, r);
  }

  /**
   * A list holding, in order, the armature bone of each PSA bone below n
   * whose parent is missing holds exactly those armature bones.
   */
  lemma MissingParentArmatureBones(m: BoneMapping, armatureBoneNames: seq<string>, armatureBoneParents: seq<Option<nat>>,
                                   n: nat, r: seq<nat>)
    requires var ps := MissingParentPsaBones(m, armatureBoneNames, armatureBoneParents, n);
      |r| == |ps| && forall k :: 0 <= k < |ps| ==> r[k] == m.psaToArmature[ps[k]]
    ensures forall a :: a in r <==>
      exists p: nat :: p < n && ParentMissing(m, p, armatureBoneNames, armatureBoneParents) && m.psaToArmature[p] == a
  {
    var ps: seq<nat> := MissingParentPsaBones(m, armatureBoneNames, armatureBoneParents, n);
    forall a: nat ensures a in r <==>
      exists p: nat :: p < n && ParentMissing(m, p, armatureBoneNames, armatureBoneParents) && m.psaToArmature[p] == a
    {
      if a in r {
        var k :| 0 <= k < |r| && r[k] == a;
        assert ps[k] < n && ParentMissing(m, ps[k], armatureBoneNames, armatureBoneParents) && m.psaToArmature[ps[k]] == a;
      }
      if exists p: nat :: p < n && ParentMissing(m, p, armatureBoneNames, armatureBoneParents) && m.psaToArmature[p] == a {
        var p: nat :| p < n && ParentMissing(m, p, armatureBoneNames, armatureBoneParents) && m.psaToArmature[p] == a;
        var k :| 0 <= k < |ps| && ps[k] == p;
        assert r[k] == a;
      }
    }
  }

  /**
   * The warning about bones with missing parents: given when there is at
   * least one, with their count and their names in the order collected.
   */
  function MissingParentsWarning(bones: seq<nat>, armatureBoneNames: seq<string>): (w: Option<Warning>)
    requires forall k :: 0 <= k < |bones| ==> bones[k] < |armatureBoneNames|
    ensures w.Some? <==> |bones| > 0
    ensures w.Some? ==> (w.value.MissingParents? && w.value.count == |bones| && |w.value.boneNames| == |bones|
      && forall k :: 0 <= k < |bones| ==> w.value.boneNames[k] == armatureBoneNames[bones[k]])
  {
    if |bones| > 0 then Some(MissingParents(|bones|, seq(|bones|, k requires 0 <= k < |bones| => armatureBoneNames[bones[k]])))
    else None
  }

  predicate DistinctNames(names: seq<string>)
  {
    forall i, j :: 0 <= i < j < |names| ==> names[i] != names[j]
  }

  /**
   * When the armature's bone names are distinct (as Blender keeps them), an
   * imported bone is reported for a missing parent exactly when its parent
   * armature bone was found by no PSA bone.
   */
  lemma ParentMissingMeansUnfound(psaBoneNames: seq<string>, armatureBoneNames: seq<string>,
                                  armatureBoneParents: seq<Option<nat>>, boneMappingMode: string, p: nat)
    requires DistinctNames(armatureBoneNames) && |armatureBoneParents| == |armatureBoneNames|
    requires forall a :: 0 <= a < |armatureBoneParents| && armatureBoneParents[a].Some? ==> armatureBoneParents[a].value < |armatureBoneNames|
    requires var finds := Finds(psaBoneNames, armatureBoneNames, boneMappingMode);
      p < |finds| && Claims(finds, p)
    ensures var finds := Finds(psaBoneNames, armatureBoneNames, boneMappingMode);
      var m := Mapping(psaBoneNames, armatureBoneNames, finds);
      var parent := armatureBoneParents[finds[p].value];
      ParentMissing(m, p, armatureBoneNames, armatureBoneParents) <==> parent.Some? && !Found(finds, parent.value)
  {
    var finds := Finds(psaBoneNames, armatureBoneNames, boneMappingMode);
    MappingForward(psaBoneNames, armatureBoneNames, finds);
    var parent := armatureBoneParents[finds[p].value];
    if parent.Some? {
      UsedNameIffFound(psaBoneNames, armatureBoneNames, boneMappingMode, parent.value);
    }
  }

  /** With distinct armature names, an armature bone's name is used exactly when some PSA bone found it. */
  lemma UsedNameIffFound(psaBoneNames: seq<string>, armatureBoneNames: seq<string>, boneMappingMode: string, q: nat)
    requires DistinctNames(armatureBoneNames) && q < |armatureBoneNames|
    ensures var finds := Finds(psaBoneNames, armatureBoneNames, boneMappingMode);
      armatureBoneNames[q] in Mapping(psaBoneNames, armatureBoneNames, finds).psaBoneNames <==> Found(finds, q)
  {
    var finds := Finds(psaBoneNames, armatureBoneNames, boneMappingMode);
    var used := Mapping(psaBoneNames, armatureBoneNames, finds).psaBoneNames;
    MappingNames(psaBoneNames, armatureBoneNames, finds);
    var name := armatureBoneNames[q];
    if Found(finds, q) {
      var p' :| 0 <= p' < |finds| && finds[p'] == Some(q);
      assert used[p'] == name;
    }
    if name in used {
      var p' :| 0 <= p' < |used| && used[p'] == name;
      UsedNameFound(psaBoneNames[p'], armatureBoneNames, boneMappingMode, finds[p'], q, used[p']);
    }
  }

  lemma UsedNameFound(psaBoneName: string, armatureBoneNames: seq<string>, boneMappingMode: string, find: Option<nat>, q: nat, usedName: string)
    requires DistinctNames(armatureBoneNames) && q < |armatureBoneNames|
    requires find == BoneIndexFor(psaBoneName, armatureBoneNames, boneMappingMode)
    requires usedName == if find.Some? then armatureBoneNames[find.value] else psaBoneName
    requires usedName == armatureBoneNames[q]
    ensures find == Some(q)
  {
    assert NamesMatch(armatureBoneNames[q], usedName, boneMappingMode);
    assert find.Some?;
  }

  // ---------------------------------------------------------------------
  // Track flags
  // ---------------------------------------------------------------------

  /** A bone's flags for a sequence: its config entry, 0 without one. */
  function BoneTrackFlags(sequenceBoneFlags: SequenceBoneFlags, sequenceName: string, psaBoneIndex: nat): bv32
  {
    if sequenceName in sequenceBoneFlags && psaBoneIndex in sequenceBoneFlags[sequenceName] then
      sequenceBoneFlags[sequenceName][psaBoneIndex]
    else 0
  }

  /** Which of a bone's seven curves (Qw, Qx, Qy, Qz, Lx, Ly, Lz) are created under the flags. */
  function FcurvesCreated(boneTrackFlags: bv32): (r: seq<bool>)
    ensures |r| == 7
    ensures forall i :: 0 <= i < 4 ==> r[i] == (boneTrackFlags & REMOVE_TRACK_ROTATION == 0)
    ensures forall i :: 4 <= i < 7 ==> r[i] == (boneTrackFlags & REMOVE_TRACK_LOCATION == 0)
  {
    var addRotation := boneTrackFlags & REMOVE_TRACK_ROTATION == 0;
    var addLocation := boneTrackFlags & REMOVE_TRACK_LOCATION == 0;
    [addRotation, addRotation, addRotation, addRotation, addLocation, addLocation, addLocation]
  }

  /**
   * A bone without a config entry gets all seven curves; with an entry
   * written as 'all', 'trans' or 'rot', the rotation curves are dropped for
   * 'all' and 'rot' and the location curves for 'all' and 'trans'.
   */
  lemma TrackFlagsMeaning(sequenceBoneFlags: SequenceBoneFlags, sequenceName: string, psaBoneIndex: nat, value: string)
    ensures !(sequenceName in sequenceBoneFlags && psaBoneIndex in sequenceBoneFlags[sequenceName]) ==>
      FcurvesCreated(BoneTrackFlags(sequenceBoneFlags, sequenceName, psaBoneIndex)) == [true, true, true, true, true, true, true]
    ensures var created := FcurvesCreated(GetBoneFlagsFromValue(value));
      && (created[0] <==> value != "all" && value != "rot")
      && (created[4] <==> value != "all" && value != "trans")
  {
    BoneFlagsMeaning(value);
  }

  // ---------------------------------------------------------------------
  // _get_sample_frame_times and the keyframe data
  // ---------------------------------------------------------------------

  /** The smallest integer at least x. */
  function Ceil(x: real): (c: int)
    ensures c as real >= x && (c - 1) as real < x
  {
    if x.Floor as real == x then x.Floor else x.Floor + 1
  }

  /** How many times before the last one: none when there is at most one frame, else the steps that stay below n - 1. */
  function SampleStepCount(sourceFrameCount: int, frameStep: real): nat
    requires frameStep > 0.0
  {
    if sourceFrameCount - 1 <= 0 then 0 else Ceil((sourceFrameCount - 1) as real / frameStep)
  }

  /**
   * The sample times in closed form: 0, step, 2 step, ... while below
   * n - 1, then n - 1 itself.
   */
  function SampleFrameTimes(sourceFrameCount: int, frameStep: real): (r: seq<real>)
    requires frameStep > 0.0
  {
    seq(SampleStepCount(sourceFrameCount, frameStep), i => i as real * frameStep) + [(sourceFrameCount - 1) as real]
  }

  lemma StepBelowEnd(a: real, frameStep: real, k: nat)
    requires frameStep > 0.0
    ensures k as real * frameStep < a <==> k as real < a / frameStep
  {
    var q := a / frameStep;
    assert q * frameStep == a;
    assert k as real * frameStep - a == (k as real - q) * frameStep;
  }

  /**
   * `_get_sample_frame_times`, collected into a list: AssertionError for a
   * step that is not positive; otherwise the times the loop yields, adding
   * the step each pass (real arithmetic), then n - 1.
   */
  method GetSampleFrameTimes(sourceFrameCount: int, frameStep: real) returns (r: Result<seq<real>>)
    ensures frameStep <= 0.0 ==> r == Err(AssertionError)
    ensures frameStep > 0.0 ==> r == Ok(SampleFrameTimes(sourceFrameCount, frameStep))
  {
    if frameStep <= 0.0 {
      return Err(AssertionError);
    }
    var last := (sourceFrameCount - 1) as real;
    var count := SampleStepCount(sourceFrameCount, frameStep);
    var times: seq<real> := [];
    var time := 0.0;
    var k := 0;
    while time < last
      invariant 0 <= k <= count
      invariant time == k as real * frameStep
      invariant |times| == k && forall i :: 0 <= i < k ==> times[i] == i as real * frameStep
      decreases count - k
    {
      StepBelowEnd(last, frameStep, k);
      times := times + [time];
      time := time + frameStep;
      k := k + 1;
    }
    if k > 0 {
      StepBelowEnd(last, frameStep, k - 1);
      assert (k - 1) as real * frameStep < last;
    }
    StepBelowEnd(last, frameStep, k);
    assert k == count;
    assert forall i :: 0 <= i < count ==> times[i] == seq(count, i => i as real * frameStep)[i];
    assert times == seq(count, i => i as real * frameStep);
    return Ok(times + [last]);
  }

  /**
   * For n >= 1 frames the schedule starts at 0, strictly increases, never
   * passes n - 1 and ends exactly there; the steps between times are the
   * frame step, except the last, which is at most one step.
   */
  lemma SampleFrameTimesSchedule(sourceFrameCount: int, frameStep: real)
    requires sourceFrameCount >= 1 && frameStep > 0.0
    ensures var r := SampleFrameTimes(sourceFrameCount, frameStep);
      && r[0] == 0.0
      && r[|r| - 1] == (sourceFrameCount - 1) as real
      && (forall i :: 0 <= i < |r| - 1 ==> r[i] < r[i + 1] <= r[i] + frameStep)
      && (forall i :: 0 <= i < |r| ==> 0.0 <= r[i] <= (sourceFrameCount - 1) as real)
  {
    var r := SampleFrameTimes(sourceFrameCount, frameStep);
    var count := SampleStepCount(sourceFrameCount, frameStep);
    var last := (sourceFrameCount - 1) as real;
    forall i | 0 <= i < count ensures r[i] < last {
      StepBelowEnd(last, frameStep, i);
    }
    if count > 0 {
      StepBelowEnd(last, frameStep, count);
      StepBelowEnd(last, frameStep, count - 1);
      assert r[count - 1] == (count - 1) as real * frameStep;
      assert count as real * frameStep == (count - 1) as real * frameStep + frameStep;
    }
    forall i | 0 <= i < count ensures 0.0 <= r[i] {
      assert 0.0 <= i as real;
    }
  }

  /**
   * The frame count after resampling: the source's own when the step is
   * exactly 1 (no resampling), the number of sample times otherwise.
   */
  function ResampledFrameCount(sourceFrameCount: int, frameStep: real): (r: int)
    requires frameStep > 0.0
    ensures frameStep == 1.0 ==> r == sourceFrameCount
    ensures frameStep != 1.0 ==> r == |SampleFrameTimes(sourceFrameCount, frameStep)|
  {
    if frameStep == 1.0 then sourceFrameCount else |SampleFrameTimes(sourceFrameCount, frameStep)|
  }

  /**
   * The key data written to one curve: time and value pairs, the times
   * being 0, 1, ..., count - 1 and the values those of the resampled
   * frames, in order.
   */
  function FcurveData(values: seq<real>): (r: seq<real>)
    ensures |r| == 2 * |values|
    ensures forall i :: 0 <= i < |values| ==> r[2 * i] == i as real && r[2 * i + 1] == values[i]
  {
    if values == [] then []
    else
      var front := FcurveData(values[..|values| - 1]);
      assert forall i :: 0 <= i < |values| - 1 ==> values[..|values| - 1][i] == values[i];
      front + [(|values| - 1) as real, values[|values| - 1]]
  }

  // ---------------------------------------------------------------------
  // _resample_sequence_data_matrix, for one location channel
  // ---------------------------------------------------------------------

  /** Whether a sample time falls on a whole frame (`time % 1.0 == 0.0`). */
  predicate WholeFrame(time: real)
  {
    time.Floor as real == time
  }

  /**
   * Whether the frames a sample time reads exist among frameCount frames:
   * the frame itself at a whole time, the frame below and the one after it
   * otherwise. (`int(time)` is the floor here: every time the schedule
   * yields is whole or positive.)
   */
  predicate ReadsWithin(time: real, frameCount: int)
  {
    0 <= time.Floor && time.Floor + (if WholeFrame(time) then 0 else 1) < frameCount
  }

  /**
   * For a sequence of at least one frame, resampling reads only frames
   * that exist.
   */
  lemma ResampleReadsExistingFrames(sourceFrameCount: int, frameStep: real)
    requires sourceFrameCount >= 1 && frameStep > 0.0
    ensures var times := SampleFrameTimes(sourceFrameCount, frameStep);
      forall i :: 0 <= i < |times| ==> ReadsWithin(times[i], sourceFrameCount)
  {
    var times := SampleFrameTimes(sourceFrameCount, frameStep);
    SampleFrameTimesSchedule(sourceFrameCount, frameStep);
    forall i | 0 <= i < |times| ensures ReadsWithin(times[i], sourceFrameCount) {
      assert 0.0 <= times[i] <= (sourceFrameCount - 1) as real;
    }
  }

  /** `Vector.lerp`: the point a fraction of the way from a to b. */
  function Lerp(a: real, b: real, factor: real): real
  {
    a + (b - a) * factor
  }

  /** Whether v lies between a and b, in either order. */
  predicate Between(v: real, a: real, b: real)
  {
    (a <= v <= b) || (b <= v <= a)
  }

  lemma LerpBetween(a: real, b: real, factor: real)
    requires 0.0 <= factor <= 1.0
    ensures Between(Lerp(a, b, factor), a, b)
  {
    var d := b - a;
    ScaledWithin(d, factor);
    var v := Lerp(a, b, factor);
    assert v == a + d * factor;
    if d >= 0.0 {
      assert a <= v <= b;
    } else {
      assert b <= v <= a;
    }
  }

  /** A fraction of d lies between 0 and d. */
  lemma ScaledWithin(d: real, factor: real)
    requires 0.0 <= factor <= 1.0
    ensures d >= 0.0 ==> 0.0 <= d * factor <= d
    ensures d < 0.0 ==> d <= d * factor <= 0.0
  {
    var rest := 1.0 - factor;
    assert d * factor + d * rest == d;
    if d >= 0.0 {
      assert d * rest >= 0.0;
      assert d * factor >= 0.0;
    } else {
      var e := -d;
      assert e * rest >= 0.0 && e * factor >= 0.0;
      assert d * rest == -(e * rest) && d * factor == -(e * factor);
    }
  }

  /**
   * What a resampled value is: at a whole frame, that frame's value; at any
   * other time, the linear interpolation between the frame below and the
   * one after it by the fractional part, which lies between the two.
   */
  predicate Resampled(frames: seq<real>, time: real, v: real)
  {
    && ReadsWithin(time, |frames|)
    && (WholeFrame(time) ==> v == frames[time.Floor])
    && (!WholeFrame(time) ==>
          && v == Lerp(frames[time.Floor], frames[time.Floor + 1], time - time.Floor as real)
          && Between(v, frames[time.Floor], frames[time.Floor + 1]))
  }

  /** With no frames the schedule is the single time -1. */
  lemma EmptySchedule(frameStep: real)
    requires frameStep > 0.0
    ensures SampleFrameTimes(0, frameStep) == [-1.0]
  {
  }

  /**
   * `_resample_sequence_data_matrix` for one location channel: a step of
   * exactly 1 returns the frames as they are; otherwise the schedule is
   * built (AssertionError for a step that is not positive) and each sample
   * time at a whole frame copies that frame, any other lying between the
   * two frames around it, interpolated linearly by the fractional part.
   * With no frames the schedule is [-1], and reading frame -1 of an empty
   * matrix raises IndexError. (`int(time)` is the floor here: every time
   * the schedule yields is whole or positive.)
   */
  method ResampleChannel(frames: seq<real>, frameStep: real) returns (r: Result<seq<real>>)
    ensures frameStep == 1.0 ==> r == Ok(frames)
    ensures frameStep != 1.0 && frameStep <= 0.0 ==> r == Err(AssertionError)
    ensures frameStep != 1.0 && frameStep > 0.0 && |frames| == 0 ==> r == Err(IndexError)
    ensures frameStep != 1.0 && frameStep > 0.0 && |frames| >= 1 ==>
      var times := SampleFrameTimes(|frames|, frameStep);
      && r.Ok? && |r.value| == |times|
      && forall i :: 0 <= i < |times| ==> Resampled(frames, times[i], r.value[i])
  {
    if frameStep == 1.0 {
      return Ok(frames);
    }
    var sampled := GetSampleFrameTimes(|frames|, frameStep);
    if sampled.Err? {
      return Err(sampled.error);
    }
    var times := sampled.value;
    if |frames| >= 1 {
      ResampleReadsExistingFrames(|frames|, frameStep);
    } else {
      EmptySchedule(frameStep);
    }
    var values: seq<real> := [];
    for sampleFrameIndex := 0 to |times|
      invariant |values| == sampleFrameIndex
      invariant |frames| >= 1 || sampleFrameIndex == 0
      invariant forall i :: 0 <= i < sampleFrameIndex ==> Resampled(frames, times[i], values[i])
    {
      var sampleFrameTime := times[sampleFrameIndex];
      var frameIndex := sampleFrameTime.Floor;
      if WholeFrame(sampleFrameTime) {
        if frameIndex < -|frames| || |frames| <= frameIndex {
          return Err(IndexError);
        }
        values := values + [frames[frameIndex]];
      } else {
        var factor := sampleFrameTime - frameIndex as real;
        LerpBetween(frames[frameIndex], frames[frameIndex + 1], factor);
        values := values + [Lerp(frames[frameIndex], frames[frameIndex + 1], factor)];
      }
    }
    return Ok(values);
  }

  /**
   * Resampling keeps the channel's first and last frames: the schedule
   * starts at frame 0 and ends on the last frame, both whole.
   */
  lemma ResampleKeepsEnds(frames: seq<real>, frameStep: real, r: seq<real>)
    requires |frames| >= 1 && frameStep > 0.0
    requires var times := SampleFrameTimes(|frames|, frameStep);
      && |r| == |times|
      && forall i :: 0 <= i < |times| ==> Resampled(frames, times[i], r[i])
    ensures r[0] == frames[0] && r[|r| - 1] == frames[|frames| - 1]
  {
    var times := SampleFrameTimes(|frames|, frameStep);
    SampleFrameTimesSchedule(|frames|, frameStep);
    assert WholeFrame(times[0]) && times[0].Floor == 0;
    assert Resampled(frames, times[0], r[0]);
    assert WholeFrame(times[|times| - 1]) && times[|times| - 1].Floor == |frames| - 1;
    assert Resampled(frames, times[|times| - 1], r[|r| - 1]);
  }

  // ---------------------------------------------------------------------
  // The sequence loop of import_psa
  // ---------------------------------------------------------------------

  /** A PSA sequence as the importer uses it: its decoded name, its frame rate and its frame count. */
  datatype ImportSequence = ImportSequence(name: string, fps: real, frameCount: nat)

  /** The options of an import that decide which actions it writes. */
  datatype ImportOptions = ImportOptions(
    actionNamePrefix: string,
    fpsCustom: real,
    fpsSource: string,
    sequenceNames: seq<string>,
    shouldOverwrite: bool,
    shouldWriteKeyframes: bool,
    shouldWriteMetadata: bool,
    shouldUseFakeUser: bool,
    shouldStash: bool)

  /**
   * What the import does for one sequence: the action's name, whether an
   * existing action of that name is reused, how many keyframes each curve
   * gets (None when keyframes are not written), the frame rate stored as
   * metadata (None when it is not written) and the fake-user setting.
   */
  datatype ImportedAction = ImportedAction(
    name: string,
    reused: bool,
    keyframeCount: Option<nat>,
    metadataFps: Option<real>,
    useFakeUser: bool)

  /** The frame rate the sequence is brought to: the custom one, the scene's, or its own. */
  function TargetFps(fpsSource: string, fpsCustom: real, sceneFps: int, sequence: ImportSequence): (r: Result<real>)
    ensures r.Err? <==> fpsSource !in {"CUSTOM", "SCENE", "SEQUENCE"}
    ensures r.Err? ==> r.error == AssertionError
    ensures fpsSource == "SEQUENCE" ==> r == Ok(sequence.fps)
  {
    match fpsSource
    case "CUSTOM" => Ok(fpsCustom)
    case "SCENE" => Ok(sceneFps as real)
    case "SEQUENCE" => Ok(sequence.fps)
    case _ => Err(AssertionError)
  }

  /**
   * The keyframes written per curve: the frame step is the sequence's rate
   * over the target rate (ZeroDivisionError for a target of 0); a step of
   * exactly 1 keeps the frames, any other step resamples them
   * (AssertionError for a step that is not positive, IndexError for a
   * sequence without frames, as ResampleChannel states).
   */
  function KeyframeCount(sequence: ImportSequence, targetFps: real): (r: Result<nat>)
    ensures targetFps == 0.0 <==> r == Err(ZeroDivisionError)
    ensures targetFps == sequence.fps && targetFps != 0.0 ==> r == Ok(sequence.frameCount)
    ensures targetFps != 0.0 && sequence.fps / targetFps > 0.0 && sequence.frameCount >= 1 ==>
      r.Ok? && r.value >= 1
    ensures targetFps != 0.0 && sequence.fps / targetFps <= 0.0 ==> r == Err(AssertionError)
    ensures targetFps != 0.0 && sequence.fps / targetFps > 0.0 && sequence.fps / targetFps != 1.0 && sequence.frameCount == 0 ==>
      r == Err(IndexError)
    ensures r.Ok? ==> sequence.fps / targetFps > 0.0 && r.value == ResampledFrameCount(sequence.frameCount, sequence.fps / targetFps)
  {
    if targetFps == 0.0 then Err(ZeroDivisionError)
    else
      var frameStep := sequence.fps / targetFps;
      if frameStep == 1.0 then Ok(sequence.frameCount)
      else if frameStep <= 0.0 then Err(AssertionError)
      else if sequence.frameCount == 0 then Err(IndexError)
      else Ok(|SampleFrameTimes(sequence.frameCount, frameStep)|)
  }

  /**
   * One pass of the sequence loop, given the names of the actions that
   * exist when it starts.
   */
  function ImportOne(options: ImportOptions, sceneFps: int, existingActions: set<string>, sequence: ImportSequence): (r: Result<ImportedAction>)
  {
    var actionName := options.actionNamePrefix + sequence.name;
    var reused := options.shouldOverwrite && actionName in existingActions;
    match TargetFps(options.fpsSource, options.fpsCustom, sceneFps, sequence)
    case Err(e) => Err(e)
    case Ok(targetFps) =>
      var keyframeCount :=
        if options.shouldWriteKeyframes then
          match KeyframeCount(sequence, targetFps)
          case Err(e) => Err(e)
          case Ok(n) => Ok(Some(n))
        else Ok(None);
      match keyframeCount
      case Err(e) => Err(e)
      case Ok(count) =>
        Ok(ImportedAction(actionName, reused, count,
          if options.shouldWriteMetadata then Some(targetFps) else None, options.shouldUseFakeUser))
  }

  /** The stash: one muted NLA track per imported action, named after it and holding one strip of it at frame 0. */
  datatype StashTrack = StashTrack(name: string, mute: bool, stripName: string, stripStart: int)

  function StashTracks(actions: seq<ImportedAction>): (r: seq<StashTrack>)
    ensures |r| == |actions|
    ensures forall i :: 0 <= i < |r| ==> r[i] == StashTrack(actions[i].name, true, actions[i].name, 0)
  {
    seq(|actions|, i requires 0 <= i < |actions| => StashTrack(actions[i].name, true, actions[i].name, 0))
  }

  /** The names of the given actions. */
  function ActionNames(actions: seq<ImportedAction>): (r: set<string>)
    ensures forall i :: 0 <= i < |actions| ==> actions[i].name in r
    ensures forall name :: name in r ==> exists i :: 0 <= i < |actions| && actions[i].name == name
  {
    set i | 0 <= i < |actions| :: actions[i].name
  }

  lemma ActionNamesSnoc(actions: seq<ImportedAction>, action: ImportedAction)
    ensures ActionNames(actions + [action]) == ActionNames(actions) + {action.name}
  {
    var all := actions + [action];
    forall name | name in ActionNames(all) ensures name in ActionNames(actions) + {action.name} {
      var i :| 0 <= i < |all| && all[i].name == name;
      if i < |actions| {
        assert all[i] == actions[i];
      }
    }
    forall name | name in ActionNames(actions) ensures name in ActionNames(all) {
      var i :| 0 <= i < |actions| && actions[i].name == name;
      assert all[i] == actions[i];
    }
    assert all[|actions|] == action;
  }

  /**
   * The sequence loop: one pass per sequence, in order, each seeing the
   * actions that existed before plus those the earlier passes made; the
   * first failing pass ends the import.
   */
  function ImportAll(options: ImportOptions, sceneFps: int, existingActions: set<string>, sequences: seq<ImportSequence>): Result<seq<ImportedAction>>
  {
    if sequences == [] then Ok([])
    else
      var n := |sequences| - 1;
      match ImportAll(options, sceneFps, existingActions, sequences[..n])
      case Err(e) => Err(e)
      case Ok(prev) =>
        match ImportOne(options, sceneFps, existingActions + ActionNames(prev), sequences[n])
        case Err(e) => Err(e)
        case Ok(action) => Ok(prev + [action])
  }

  /** Every imported action is named by the prefix and its sequence's name, in request order. */
  lemma {:induction false} ImportAllNames(options: ImportOptions, sceneFps: int, existingActions: set<string>, sequences: seq<ImportSequence>)
    requires ImportAll(options, sceneFps, existingActions, sequences).Ok?
    ensures var actions := ImportAll(options, sceneFps, existingActions, sequences).value;
      && |actions| == |sequences|
      && (forall i :: 0 <= i < |actions| ==> actions[i].name == options.actionNamePrefix + sequences[i].name)
  {
    if sequences != [] {
      var n := |sequences| - 1;
      ImportAllNames(options, sceneFps, existingActions, sequences[..n]);
    }
  }

  /** The passes before the last one are the loop over the shorter list. */
  lemma ImportAllPrefix(options: ImportOptions, sceneFps: int, existingActions: set<string>, sequences: seq<ImportSequence>)
    requires sequences != [] && ImportAll(options, sceneFps, existingActions, sequences).Ok?
    ensures var n := |sequences| - 1;
      var prev := ImportAll(options, sceneFps, existingActions, sequences[..n]);
      var actions := ImportAll(options, sceneFps, existingActions, sequences).value;
      && prev.Ok? && |actions| == n + 1 && actions[..n] == prev.value
      && ImportOne(options, sceneFps, existingActions + ActionNames(prev.value), sequences[n]) == Ok(actions[n])
  {
  }

  /** The names an action list takes, as made from the sequences before position k. */
  function EarlierNames(prefix: string, sequences: seq<ImportSequence>, k: nat): set<string>
    requires k <= |sequences|
  {
    set j | 0 <= j < k :: prefix + sequences[j].name
  }

  lemma ActionNamesOfImport(options: ImportOptions, sceneFps: int, existingActions: set<string>, sequences: seq<ImportSequence>)
    requires ImportAll(options, sceneFps, existingActions, sequences).Ok?
    ensures ActionNames(ImportAll(options, sceneFps, existingActions, sequences).value)
      == EarlierNames(options.actionNamePrefix, sequences, |sequences|)
  {
    var actions := ImportAll(options, sceneFps, existingActions, sequences).value;
    ImportAllNames(options, sceneFps, existingActions, sequences);
    forall name | name in ActionNames(actions) ensures name in EarlierNames(options.actionNamePrefix, sequences, |sequences|) {
      var j :| 0 <= j < |actions| && actions[j].name == name;
    }
    forall name | name in EarlierNames(options.actionNamePrefix, sequences, |sequences|) ensures name in ActionNames(actions) {
      var j :| 0 <= j < |sequences| && options.actionNamePrefix + sequences[j].name == name;
      assert actions[j].name == name;
    }
  }

  /**
   * An action is reused exactly when overwriting is on and an action of
   * that name existed before the import or was made by an earlier pass.
   */
  lemma {:induction false} ImportAllReuse(options: ImportOptions, sceneFps: int, existingActions: set<string>, sequences: seq<ImportSequence>, i: nat)
    requires ImportAll(options, sceneFps, existingActions, sequences).Ok? && i < |sequences|
    ensures var actions := ImportAll(options, sceneFps, existingActions, sequences).value;
      i < |actions| &&
      (actions[i].reused <==>
        options.shouldOverwrite && actions[i].name in existingActions + EarlierNames(options.actionNamePrefix, sequences, i))
    decreases |sequences|
  {
    var n := |sequences| - 1;
    ImportAllPrefix(options, sceneFps, existingActions, sequences);
    EarlierNamesOfPrefix(options.actionNamePrefix, sequences, n, if i < n then i else n);
    if i < n {
      ImportAllReuse(options, sceneFps, existingActions, sequences[..n], i);
    } else {
      ActionNamesOfImport(options, sceneFps, existingActions, sequences[..n]);
      ImportOneReuse(options, sceneFps, existingActions + ActionNames(ImportAll(options, sceneFps, existingActions, sequences[..n]).value), sequences[n]);
    }
  }

  /** The names made before position k are the same in a longer list. */
  lemma EarlierNamesOfPrefix(prefix: string, sequences: seq<ImportSequence>, n: nat, k: nat)
    requires k <= n <= |sequences|
    ensures EarlierNames(prefix, sequences[..n], k) == EarlierNames(prefix, sequences, k)
  {
    assert forall j :: 0 <= j < k ==> sequences[..n][j] == sequences[j];
  }

  /** A pass reuses its action exactly when overwriting is on and the name is already taken. */
  lemma ImportOneReuse(options: ImportOptions, sceneFps: int, existingActions: set<string>, sequence: ImportSequence)
    requires ImportOne(options, sceneFps, existingActions, sequence).Ok?
    ensures var action := ImportOne(options, sceneFps, existingActions, sequence).value;
      action.name == options.actionNamePrefix + sequence.name &&
      (action.reused <==> options.shouldOverwrite && action.name in existingActions)
  {
  }

  /** An unknown frame-rate source fails the first pass with an AssertionError. */
  lemma {:induction false} ImportAllBadFpsSource(options: ImportOptions, sceneFps: int, existingActions: set<string>, sequences: seq<ImportSequence>)
    requires options.fpsSource !in {"CUSTOM", "SCENE", "SEQUENCE"} && sequences != []
    ensures ImportAll(options, sceneFps, existingActions, sequences) == Err(AssertionError)
  {
    var n := |sequences| - 1;
    if n > 0 {
      ImportAllBadFpsSource(options, sceneFps, existingActions, sequences[..n]);
    } else {
      assert sequences[..n] == [];
    }
  }

  /** With a known frame-rate source and no keyframes to write, every pass succeeds. */
  lemma {:induction false} ImportAllWithoutKeyframes(options: ImportOptions, sceneFps: int, existingActions: set<string>, sequences: seq<ImportSequence>)
    requires options.fpsSource in {"CUSTOM", "SCENE", "SEQUENCE"} && !options.shouldWriteKeyframes
    ensures ImportAll(options, sceneFps, existingActions, sequences).Ok?
    ensures forall a :: a in ImportAll(options, sceneFps, existingActions, sequences).value ==> a.keyframeCount == None
  {
    if sequences != [] {
      var n := |sequences| - 1;
      ImportAllWithoutKeyframes(options, sceneFps, existingActions, sequences[..n]);
    }
  }

  /**
   * The sequence part of `import_psa`: a KeyError when a requested name is
   * not a sequence of the file; otherwise the actions of the sequence
   * loop over the requested sequences, then the stash tracks when asked
   * for.
   */
  method ImportSequences(psaSequences: map<string, ImportSequence>, options: ImportOptions, sceneFps: int, existingActions: set<string>)
    returns (r: Result<(seq<ImportedAction>, seq<StashTrack>)>)
    ensures (exists i :: 0 <= i < |options.sequenceNames| && options.sequenceNames[i] !in psaSequences) ==> r == Err(KeyError)
    ensures (forall i :: 0 <= i < |options.sequenceNames| ==> options.sequenceNames[i] in psaSequences) ==>
      var sequences := seq(|options.sequenceNames|, i requires 0 <= i < |options.sequenceNames| && options.sequenceNames[i] in psaSequences =>
        psaSequences[options.sequenceNames[i]]);
      match ImportAll(options, sceneFps, existingActions, sequences)
      case Err(e) => r == Err(e)
      case Ok(actions) => r == Ok((actions, if options.shouldStash then StashTracks(actions) else []))
  {
    var looked := LookupSequences(psaSequences, options.sequenceNames);
    if looked.Err? {
      return Err(looked.error);
    }
    assert forall i :: 0 <= i < |options.sequenceNames| ==> options.sequenceNames[i] in psaSequences;
    ghost var sequences := seq(|options.sequenceNames|, i requires 0 <= i < |options.sequenceNames| && options.sequenceNames[i] in psaSequences =>
      psaSequences[options.sequenceNames[i]]);
    assert looked.value == sequences;
    var actions := ImportActions(options, sceneFps, existingActions, looked.value);
    if actions.Err? {
      return Err(actions.error);
    }
    var stash := if options.shouldStash then StashTracks(actions.value) else [];
    return Ok((actions.value, stash));
  }

  /** The sequences named, in order: a KeyError at the first name the PSA lacks. */
  method LookupSequences(psaSequences: map<string, ImportSequence>, names: seq<string>) returns (r: Result<seq<ImportSequence>>)
    ensures (exists i :: 0 <= i < |names| && names[i] !in psaSequences) ==> r == Err(KeyError)
    ensures (forall i :: 0 <= i < |names| ==> names[i] in psaSequences) ==>
      r == Ok(seq(|names|, i requires 0 <= i < |names| && names[i] in psaSequences => psaSequences[names[i]]))
  {
    var sequences: seq<ImportSequence> := [];
    for k := 0 to |names|
      invariant |sequences| == k
      invariant forall i :: 0 <= i < k ==> names[i] in psaSequences && sequences[i] == psaSequences[names[i]]
    {
      var x := names[k];
      if x !in psaSequences {
        return Err(KeyError);
      }
      sequences := sequences + [psaSequences[x]];
    }
    assert sequences == seq(|names|, i requires 0 <= i < |names| && names[i] in psaSequences => psaSequences[names[i]]);
    return Ok(sequences);
  }

  /** The loop over the sequences: one action per sequence, or the first pass's error. */
  method ImportActions(options: ImportOptions, sceneFps: int, existingActions: set<string>, sequences: seq<ImportSequence>)
    returns (r: Result<seq<ImportedAction>>)
    ensures r == ImportAll(options, sceneFps, existingActions, sequences)
  {
    var actions: seq<ImportedAction> := [];
    var known := existingActions;
    for sequenceIndex := 0 to |sequences|
      invariant ImportAll(options, sceneFps, existingActions, sequences[..sequenceIndex]) == Ok(actions)
      invariant known == existingActions + ActionNames(actions)
    {
      assert sequences[..sequenceIndex + 1][..sequenceIndex] == sequences[..sequenceIndex];
      var action := ImportOne(options, sceneFps, known, sequences[sequenceIndex]);
      if action.Err? {
        ImportAllStopsAtFailure(options, sceneFps, existingActions, sequences, sequenceIndex + 1);
        return Err(action.error);
      }
      ActionNamesSnoc(actions, action.value);
      actions := actions + [action.value];
      known := known + {action.value.name};
    }
    assert sequences[..|sequences|] == sequences;
    return Ok(actions);
  }

  /** A failing pass fails the whole loop with its error. */
  lemma {:induction false} ImportAllStopsAtFailure(options: ImportOptions, sceneFps: int, existingActions: set<string>, sequences: seq<ImportSequence>, k: nat)
    requires 0 < k <= |sequences| && ImportAll(options, sceneFps, existingActions, sequences[..k]).Err?
    ensures ImportAll(options, sceneFps, existingActions, sequences) == ImportAll(options, sceneFps, existingActions, sequences[..k])
    decreases |sequences| - k
  {
    if k < |sequences| {
      assert sequences[..k + 1][..k] == sequences[..k];
      ImportAllStopsAtFailure(options, sceneFps, existingActions, sequences, k + 1);
    } else {
      assert sequences[..k] == sequences;
    }
  }
}
