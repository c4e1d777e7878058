// The material order of a PSK export, io_scene_psk_psa/psk/export/operators.py:
// `get_sorted_materials_by_names`, `populate_material_name_list` and the
// operators that move an entry of the material name list up or down.
module MaterialOrder {
  import opened Seqs
  import opened StableSort

  /**
   * A material as the export sees it: its name, and an identity that tells
   * apart two materials that share a name (a linked library's material can
   * carry the name of a local one).
   */
  datatype Material = Material(name: string, id: nat)

  /** `material_names.index(name)`, with |names| for a name that is not listed. */
  function FirstIndex(names: seq<string>, name: string): (r: nat)
    ensures r <= |names|
    ensures r < |names| <==> name in names
    ensures r < |names| ==> names[r] == name
    ensures forall k :: 0 <= k < r ==> names[k] != name
  {
    if names == [] then 0
    else if names[0] == name then 0
    else 1 + FirstIndex(names[1..], name)
  }

  /** The sort key: the position of a material's name in the list. */
  function PositionKey(names: seq<string>): Material -> int
  {
    (m: Material) => FirstIndex(names, m.name)
  }

  /** Whether a material's name is in the list. */
  function InNames(names: seq<string>): Material -> bool
  {
    (m: Material) => m.name in names
  }

  /** The materials whose name is listed (inNames) or not listed (!inNames), in their order. */
  function Listed(materials: seq<Material>, names: seq<string>, inNames: bool): seq<Material>
  {
    Filter(materials, InNames(names), inNames)
  }

  /**
   * `get_sorted_materials_by_names`: the materials whose name is listed,
   * sorted by the position of their name, then the others as found.
   */
  function GetSortedMaterialsByNames(materials: seq<Material>, materialNames: seq<string>): (r: seq<Material>)
    ensures |r| == |materials|
    ensures multiset(r) == multiset(materials)
  {
    var listed := Listed(materials, materialNames, true);
    var unlisted := Listed(materials, materialNames, false);
    var front := SortByKey(listed, PositionKey(materialNames));
    FilterPartition(materials, InNames(materialNames));
    assert multiset(front + unlisted) == multiset(front) + multiset(unlisted);
    front + unlisted
  }

  lemma ListedMembers(materials: seq<Material>, names: seq<string>, inNames: bool)
    ensures forall m :: m in Listed(materials, names, inNames) <==> m in materials && (m.name in names) == inNames
  {
    FilterMembers(materials, InNames(names), inNames);
  }

  lemma ListedConcat(a: seq<Material>, b: seq<Material>, names: seq<string>, inNames: bool)
    ensures Listed(a + b, names, inNames) == Listed(a, names, inNames) + Listed(b, names, inNames)
  {
    FilterConcat(a, b, InNames(names), inNames);
  }

  lemma ListedAll(materials: seq<Material>, names: seq<string>, inNames: bool)
    requires forall m :: m in materials ==> (m.name in names) == inNames
    ensures Listed(materials, names, inNames) == materials
  {
    FilterAll(materials, InNames(names), inNames);
  }

  lemma ListedNone(materials: seq<Material>, names: seq<string>, inNames: bool)
    requires forall m :: m in materials ==> (m.name in names) != inNames
    ensures Listed(materials, names, inNames) == []
  {
    FilterNone(materials, InNames(names), inNames);
  }


  /** The sorted listed materials and the unlisted ones, as GetSortedMaterialsByNames joins them. */
  lemma SortedParts(materials: seq<Material>, materialNames: seq<string>)
    ensures var front := SortByKey(Listed(materials, materialNames, true), PositionKey(materialNames));
      && GetSortedMaterialsByNames(materials, materialNames) == front + Listed(materials, materialNames, false)
      && (forall m :: m in front ==> m.name in materialNames)
      && Listed(front, materialNames, true) == front
      && Listed(front, materialNames, false) == []
  {
    var front := SortByKey(Listed(materials, materialNames, true), PositionKey(materialNames));
    ListedMembers(materials, materialNames, true);
    forall m | m in front ensures m.name in materialNames {
      assert m in multiset(front);
    }
    ListedAll(front, materialNames, true);
    ListedNone(front, materialNames, false);
  }

  /**
   * The layout of the sorted list: a permutation in which the listed
   * materials come first, ordered by the position of their name, with
   * materials that share a name in their original order, followed by the
   * unlisted materials in their original order. With no names, nothing moves.
   */
  lemma SortedMaterialsLayout(materials: seq<Material>, materialNames: seq<string>)
    ensures var r := GetSortedMaterialsByNames(materials, materialNames);
      && multiset(r) == multiset(materials)
      && (forall i, j :: 0 <= i < j < |r| && r[j].name in materialNames ==> r[i].name in materialNames)
      && (forall i, j :: 0 <= i < j < |r| && r[j].name in materialNames ==>
            FirstIndex(materialNames, r[i].name) <= FirstIndex(materialNames, r[j].name))
      && (forall k :: WithKey(Listed(r, materialNames, true), PositionKey(materialNames), k)
                   == WithKey(Listed(materials, materialNames, true), PositionKey(materialNames), k))
      && Listed(r, materialNames, false) == Listed(materials, materialNames, false)
      && (materialNames == [] ==> r == materials)
  {
    SortedOrder(materials, materialNames);
    SortedFilters(materials, materialNames);
    if materialNames == [] {
      ListedAll(materials, materialNames, false);
      ListedNone(materials, materialNames, true);
      assert SortByKey([], PositionKey(materialNames)) == [];
    }
  }

  lemma SortedOrder(materials: seq<Material>, materialNames: seq<string>)
    ensures var r := GetSortedMaterialsByNames(materials, materialNames);
      forall i, j :: 0 <= i < j < |r| && r[j].name in materialNames ==>
        r[i].name in materialNames && FirstIndex(materialNames, r[i].name) <= FirstIndex(materialNames, r[j].name)
  {
    var key := PositionKey(materialNames);
    var unlisted := Listed(materials, materialNames, false);
    var front := SortByKey(Listed(materials, materialNames, true), key);
    var r := GetSortedMaterialsByNames(materials, materialNames);
    SortedParts(materials, materialNames);
    ListedMembers(materials, materialNames, false);
    forall k | |front| <= k < |r| ensures r[k].name !in materialNames {
      assert r[k] == unlisted[k - |front|];
    }
    forall i, j | 0 <= i < j < |r| && r[j].name in materialNames
      ensures r[i].name in materialNames && key(r[i]) <= key(r[j])
    {
      assert r[i] == front[i] && r[j] == front[j];
      assert r[i] in front;
    }
  }

  lemma SortedFilters(materials: seq<Material>, materialNames: seq<string>)
    ensures var r := GetSortedMaterialsByNames(materials, materialNames);
      && Listed(r, materialNames, true) == SortByKey(Listed(materials, materialNames, true), PositionKey(materialNames))
      && Listed(r, materialNames, false) == Listed(materials, materialNames, false)
  {
    var unlisted := Listed(materials, materialNames, false);
    var front := SortByKey(Listed(materials, materialNames, true), PositionKey(materialNames));
    SortedParts(materials, materialNames);
    ListedMembers(materials, materialNames, false);
    ListedConcat(front, unlisted, materialNames, true);
    ListedConcat(front, unlisted, materialNames, false);
    ListedAll(unlisted, materialNames, false);
    ListedNone(unlisted, materialNames, true);
    assert front + [] == front && [] + unlisted == unlisted;
  }



  /** The names of a list of materials, in order. */
  function NamesOf(materials: seq<Material>): (r: seq<string>)
    ensures |r| == |materials| && forall i :: 0 <= i < |r| ==> r[i] == materials[i].name
  {
    seq(|materials|, i requires 0 <= i < |materials| => materials[i].name)
  }

  /** No two materials of the list share a name. */
  ghost predicate DistinctNames(materials: seq<Material>)
  {
    forall i, j :: 0 <= i < |materials| && 0 <= j < |materials| && materials[i].name == materials[j].name ==> i == j
  }

  lemma TwoCopies<T>(s: seq<T>, i: nat, j: nat)
    requires i < j < |s| && s[i] == s[j]
    ensures multiset(s)[s[i]] >= 2
  {
    assert s == s[..j] + s[j..];
    assert s[..j][i] == s[i];
    assert s[j..][0] == s[j];
  }

  lemma {:induction false} OneCopy(materials: seq<Material>, m: Material)
    requires DistinctNames(materials)
    ensures multiset(materials)[m] <= 1
  {
    if materials != [] {
      var rest := materials[1..];
      assert DistinctNames(rest) by {
        forall i, j | 0 <= i < |rest| && 0 <= j < |rest| && rest[i].name == rest[j].name ensures i == j {
          assert rest[i] == materials[i + 1] && rest[j] == materials[j + 1];
        }
      }
      OneCopy(rest, m);
      assert materials == [materials[0]] + rest;
      if m == materials[0] {
        forall k | 0 <= k < |rest| ensures rest[k] != m {
          assert rest[k] == materials[k + 1];
        }
      }
    }
  }

  /** A rearrangement of materials with distinct names has distinct names. */
  lemma DistinctNamesKept(materials: seq<Material>, p: seq<Material>)
    requires DistinctNames(materials) && multiset(p) == multiset(materials)
    ensures DistinctNames(p)
  {
    forall i, j | 0 <= i < |p| && 0 <= j < |p| && p[i].name == p[j].name
      ensures i == j
    {
      assert p[i] in multiset(materials) && p[j] in multiset(materials);
      var a :| 0 <= a < |materials| && materials[a] == p[i];
      var b :| 0 <= b < |materials| && materials[b] == p[j];
      OneCopy(materials, p[i]);
      if i < j {
        TwoCopies(p, i, j);
      } else if j < i {
        TwoCopies(p, j, i);
      }
    }
  }

  /**
   * Repopulating keeps the user's order: when the name list shows the
   * materials (distinct names) in some arrangement p, sorting the materials,
   * in whatever order they are found, by those names gives exactly p.
   */
  lemma UserOrderKept(materials: seq<Material>, p: seq<Material>)
    requires DistinctNames(materials) && multiset(p) == multiset(materials)
    ensures GetSortedMaterialsByNames(materials, NamesOf(p)) == p
  {
    var names := NamesOf(p);
    var key := PositionKey(names);
    DistinctNamesKept(materials, p);
    forall m | m in materials ensures m.name in names {
      assert m in multiset(p);
      var k :| 0 <= k < |p| && p[k] == m;
      assert names[k] == m.name;
    }
    ListedAll(materials, names, true);
    ListedNone(materials, names, false);
    var sorted := SortByKey(materials, key);
    assert GetSortedMaterialsByNames(materials, names) == sorted;
    OwnPositions(p);
    SortedArrangementUnique(p, sorted, key);
  }

  /** Materials with distinct names, keyed by their positions in their own name list, are ordered and keyed apart. */
  lemma OwnPositions(p: seq<Material>)
    requires DistinctNames(p)
    ensures SortedByKey(p, PositionKey(NamesOf(p))) && KeyInjective(p, PositionKey(NamesOf(p)))
  {
    var names := NamesOf(p);
    var key := PositionKey(names);
    forall i | 0 <= i < |p| ensures key(p[i]) == i {
      assert names[i] == p[i].name;
      var f := FirstIndex(names, p[i].name);
      assert names[f] == p[f].name;
    }
  }

  /** Sorting materials with distinct names by their own names leaves them where they are. */
  lemma OwnNamesKeepOrder(materials: seq<Material>)
    requires DistinctNames(materials)
    ensures GetSortedMaterialsByNames(materials, NamesOf(materials)) == materials
  {
    UserOrderKept(materials, materials);
  }

  /** Sorting is idempotent for materials with distinct names. */
  lemma SortIdempotent(materials: seq<Material>, materialNames: seq<string>)
    requires DistinctNames(materials)
    ensures var r := GetSortedMaterialsByNames(materials, materialNames);
      GetSortedMaterialsByNames(materials, NamesOf(r)) == r
  {
    UserOrderKept(materials, GetSortedMaterialsByNames(materials, materialNames));
  }

  /** An entry of the material name list: the material's name and its index. */
  datatype MaterialNameItem = MaterialNameItem(materialName: string, index: int)

  /** The entries `populate_material_name_list` adds for sorted materials. */
  function Enumerated(materials: seq<Material>): (r: seq<MaterialNameItem>)
    ensures |r| == |materials|
    ensures forall i :: 0 <= i < |r| ==> r[i].materialName == materials[i].name && r[i].index == i
  {
    seq(|materials|, i requires 0 <= i < |materials| => MaterialNameItem(materials[i].name, i))
  }

  /** The loop of `populate_material_name_list` that adds one entry per material, its index being its position. */
  method EnumerateMaterials(sorted: seq<Material>) returns (entries: seq<MaterialNameItem>)
    ensures entries == Enumerated(sorted)
  {
    entries := [];
    for index := 0 to |sorted|
      invariant |entries| == index
      invariant forall k :: 0 <= k < index ==> entries[k] == MaterialNameItem(sorted[k].name, k)
    {
      entries := entries + [MaterialNameItem(sorted[index].name, index)];
    }
  }

  /** `[x.material_name for x in material_list]`. */
  function ItemNames(items: seq<MaterialNameItem>): (r: seq<string>)
    ensures |r| == |items| && forall i :: 0 <= i < |r| ==> r[i] == items[i].materialName
  {
    seq(|items|, i requires 0 <= i < |items| => items[i].materialName)
  }

  /**
   * `collection.move(from, to)` of Blender: the item taken out at `from` and
   * put back in at `to`.
   */
  function Moved<T>(s: seq<T>, from: nat, to: nat): (r: seq<T>)
    requires from < |s| && to < |s|
    ensures |r| == |s| && r[to] == s[from]
  {
    var rest := s[..from] + s[from + 1..];
    rest[..to] + [s[from]] + rest[to..]
  }

  /** The list with the items at i and i + 1 traded. */
  function Swapped<T>(s: seq<T>, i: nat): (r: seq<T>)
    requires i + 1 < |s|
    ensures |r| == |s|
  {
    s[..i] + [s[i + 1], s[i]] + s[i + 2..]
  }

  /**
   * Moving an item to a neighbouring slot, either way, trades the two and
   * keeps the multiset of items; moving it back restores the list.
   */
  lemma AdjacentMoveSwaps<T>(s: seq<T>, i: nat)
    requires i + 1 < |s|
    ensures Moved(s, i + 1, i) == Swapped(s, i)
    ensures Moved(s, i, i + 1) == Swapped(s, i)
    ensures multiset(Swapped(s, i)) == multiset(s)
    ensures Moved(Moved(s, i + 1, i), i, i + 1) == s
  {
    MoveUpSwaps(s, i);
    MoveDownSwaps(s, i);
    SwappedMultiset(s, i);
    SwappedTwice(s, i);
  }

  lemma MoveUpSwaps<T>(s: seq<T>, i: nat)
    requires i + 1 < |s|
    ensures Moved(s, i + 1, i) == Swapped(s, i)
  {
    var rest := s[..i + 1] + s[i + 2..];
    assert rest[..i] == s[..i] && rest[i..] == [s[i]] + s[i + 2..];
  }

  lemma MoveDownSwaps<T>(s: seq<T>, i: nat)
    requires i + 1 < |s|
    ensures Moved(s, i, i + 1) == Swapped(s, i)
  {
    var rest := s[..i] + s[i + 1..];
    assert rest[..i + 1] == s[..i] + [s[i + 1]] && rest[i + 1..] == s[i + 2..];
  }

  lemma SwappedMultiset<T>(s: seq<T>, i: nat)
    requires i + 1 < |s|
    ensures multiset(Swapped(s, i)) == multiset(s)
  {
    assert s == s[..i] + [s[i], s[i + 1]] + s[i + 2..];
  }

  lemma SwappedTwice<T>(s: seq<T>, i: nat)
    requires i + 1 < |s|
    ensures Swapped(Swapped(s, i), i) == s
    ensures Moved(Swapped(s, i), i, i + 1) == Swapped(Swapped(s, i), i)
  {
    var w := Swapped(s, i);
    assert w[..i] == s[..i] && w[i] == s[i + 1] && w[i + 1] == s[i] && w[i + 2..] == s[i + 2..];
    assert s == s[..i] + [s[i], s[i + 1]] + s[i + 2..];
    var rest := w[..i] + w[i + 1..];
    assert rest[..i + 1] == w[..i] + [w[i + 1]] && rest[i + 1..] == w[i + 2..];
  }


  /** The material name list of an export, with its active (highlighted) entry. */
  class MaterialNameList {
    var items: seq<MaterialNameItem>
    var activeIndex: int

    constructor()
      ensures items == [] && activeIndex == 0
    {
      items := [];
      activeIndex := 0;
    }

    /**
     * `populate_material_name_list`, given the export's materials: they are
     * ordered by the names the list already shows, then the list is rebuilt
     * with one entry per material whose index is its position.
     */
    method PopulateMaterialNameList(materials: seq<Material>)
      modifies this
      ensures items == Enumerated(GetSortedMaterialsByNames(materials, ItemNames(old(items))))
      ensures forall i :: 0 <= i < |items| ==> items[i].index == i
      ensures activeIndex == old(activeIndex)
    {
      var materialNames := ItemNames(items);
      var sorted := GetSortedMaterialsByNames(materials, materialNames);
      items := EnumerateMaterials(sorted);
    }

    /** The move-up operator is offered only below the first entry. */
    predicate CanMoveUp()
      reads this
    {
      activeIndex > 0
    }

    /** The move-down operator is offered only above the last entry. */
    predicate CanMoveDown()
      reads this
    {
      activeIndex < |items| - 1
    }

    /** Move up: the active entry trades places with the one above, and stays active. */
    method MoveUp()
      requires CanMoveUp() && activeIndex < |items|
      modifies this
      ensures items == Moved(old(items), old(activeIndex), old(activeIndex) - 1)
      ensures activeIndex == old(activeIndex) - 1
      ensures items[activeIndex] == old(items)[old(activeIndex)]
      ensures CanMoveDown()
    {
      items := Moved(items, activeIndex, activeIndex - 1);
      activeIndex := activeIndex - 1;
    }

    /** Move down: the active entry trades places with the one below, and stays active. */
    method MoveDown()
      requires CanMoveDown() && activeIndex >= 0
      modifies this
      ensures items == Moved(old(items), old(activeIndex), old(activeIndex) + 1)
      ensures activeIndex == old(activeIndex) + 1
      ensures items[activeIndex] == old(items)[old(activeIndex)]
      ensures CanMoveUp()
    {
      items := Moved(items, activeIndex, activeIndex + 1);
      activeIndex := activeIndex + 1;
    }
  }

  /**
   * Populating twice with the same materials (distinct names) changes
   * nothing the second time, and an order the user set up by moving
   * entries survives a repopulation.
   */
  lemma RepopulateKeepsList(materials: seq<Material>, p: seq<Material>)
    requires DistinctNames(materials) && multiset(p) == multiset(materials)
    ensures Enumerated(GetSortedMaterialsByNames(materials, ItemNames(Enumerated(p)))) == Enumerated(p)
  {
    assert ItemNames(Enumerated(p)) == NamesOf(p);
    UserOrderKept(materials, p);
  }
}
