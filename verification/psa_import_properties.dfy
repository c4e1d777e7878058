// The sequence list filter of the PSA import dialog,
// io_scene_psk_psa/psa/import_/properties.py: `filter_sequences`, which
// computes bit-30 visibility flags in three passes, and
// `get_visible_sequences`.
module PsaImportProperties {
  import opened Wrappers
  import opened Seqs
  import opened Glob
  import opened PsaExportProperties

  /** An entry of the import's sequence list. */
  datatype ImportListItem = ImportListItem(actionName: string, isSelected: bool)

  /**
   * The list filter settings of the import. A regular expression is given
   * by its match-at-the-start test, None for a pattern that does not
   * compile (Python's regular expressions are not part of this model).
   */
  datatype ImportFilter = ImportFilter(
    filterName: string,
    filterIsSelected: bool,
    useFilterInvert: bool,
    useFilterRegex: bool,
    regexMatch: Option<string -> bool>)

  /** Let through by the name filter: the regular expression matches at the start, or the name matches '*filter*'. */
  predicate NameKept(pg: ImportFilter, item: ImportListItem)
  {
    if pg.useFilterRegex then pg.regexMatch.None? || pg.regexMatch.value(item.actionName)
    else GlobMatch(item.actionName, "*" + pg.filterName + "*")
  }

  /** Visible: let through by the name filter and, when asked, selected; the whole flipped by invert. */
  predicate Visible(pg: ImportFilter, item: ImportListItem)
  {
    (NameKept(pg, item) && (!pg.filterIsSelected || item.isSelected)) != pg.useFilterInvert
  }

  /** The flag of an item after the first `stage` passes. */
  predicate VisibleAfter(pg: ImportFilter, item: ImportListItem, stage: nat)
  {
    ((stage < 1 || NameKept(pg, item)) && (stage < 2 || !pg.filterIsSelected || item.isSelected))
      != (stage >= 3 && pg.useFilterInvert)
  }

  ghost predicate FlagsAfter(pg: ImportFilter, sequences: seq<ImportListItem>, fltFlags: seq<bv32>, stage: nat)
  {
    |fltFlags| == |sequences| && forall i :: 0 <= i < |sequences| ==> fltFlags[i] == Flag(VisibleAfter(pg, sequences[i], stage))
  }

  /**
   * `filter_sequences`: one flag per item, bit 30 for a visible item and 0
   * for a hidden one: the name pass (by regular expression, skipped when it
   * does not compile, or by '*filter*'), the selection pass, and invert,
   * which flips every flag whatever the filter name.
   */
  method FilterSequences(pg: ImportFilter, sequences: seq<ImportListItem>) returns (fltFlags: seq<bv32>)
    ensures |fltFlags| == |sequences|
    ensures forall i :: 0 <= i < |sequences| ==> fltFlags[i] == Flag(Visible(pg, sequences[i]))
  {
    fltFlags := seq(|sequences|, _ => BITFLAG_FILTER_ITEM);
    assert FlagsAfter(pg, sequences, fltFlags, 0);
    fltFlags := NamePass(pg, sequences, fltFlags);
    if pg.filterIsSelected {
      fltFlags := SelectionPass(pg, sequences, fltFlags);
    } else {
      assert FlagsAfter(pg, sequences, fltFlags, 2);
    }
    if pg.useFilterInvert {
      fltFlags := InvertPass(pg, sequences, fltFlags);
    } else {
      assert FlagsAfter(pg, sequences, fltFlags, 3);
    }
  }

  /** The name pass: clears the flag of every item the name filter hides. */
  method NamePass(pg: ImportFilter, sequences: seq<ImportListItem>, flags: seq<bv32>) returns (fltFlags: seq<bv32>)
    requires FlagsAfter(pg, sequences, flags, 0)
    ensures FlagsAfter(pg, sequences, fltFlags, 1)
  {
    fltFlags := flags;
    for i := 0 to |sequences|
      invariant |fltFlags| == |sequences|
      invariant forall k :: 0 <= k < i ==> fltFlags[k] == Flag(VisibleAfter(pg, sequences[k], 1))
      invariant forall k :: i <= k < |sequences| ==> fltFlags[k] == Flag(VisibleAfter(pg, sequences[k], 0))
    {
      if !NameKept(pg, sequences[i]) {
        ClearFlag(true);
        fltFlags := fltFlags[i := fltFlags[i] & !BITFLAG_FILTER_ITEM];
      }
    }
  }

  /** The selection pass: clears the flag of every unselected item. */
  method SelectionPass(pg: ImportFilter, sequences: seq<ImportListItem>, flags: seq<bv32>) returns (fltFlags: seq<bv32>)
    requires pg.filterIsSelected && FlagsAfter(pg, sequences, flags, 1)
    ensures FlagsAfter(pg, sequences, fltFlags, 2)
  {
    fltFlags := flags;
    for i := 0 to |sequences|
      invariant |fltFlags| == |sequences|
      invariant forall k :: 0 <= k < i ==> fltFlags[k] == Flag(VisibleAfter(pg, sequences[k], 2))
      invariant forall k :: i <= k < |sequences| ==> fltFlags[k] == Flag(VisibleAfter(pg, sequences[k], 1))
    {
      if !sequences[i].isSelected {
        ClearFlag(VisibleAfter(pg, sequences[i], 1));
        fltFlags := fltFlags[i := fltFlags[i] & !BITFLAG_FILTER_ITEM];
      }
    }
  }

  /** The invert pass: flips every flag. */
  method InvertPass(pg: ImportFilter, sequences: seq<ImportListItem>, flags: seq<bv32>) returns (fltFlags: seq<bv32>)
    requires pg.useFilterInvert && FlagsAfter(pg, sequences, flags, 2)
    ensures FlagsAfter(pg, sequences, fltFlags, 3)
  {
    fltFlags := flags;
    for i := 0 to |sequences|
      invariant |fltFlags| == |sequences|
      invariant forall k :: 0 <= k < i ==> fltFlags[k] == Flag(VisibleAfter(pg, sequences[k], 3))
      invariant forall k :: i <= k < |sequences| ==> fltFlags[k] == Flag(VisibleAfter(pg, sequences[k], 2))
    {
      FlipFlag(VisibleAfter(pg, sequences[i], 2));
      fltFlags := fltFlags[i := fltFlags[i] ^ BITFLAG_FILTER_ITEM];
    }
  }

  /** '**' matches every name. */
  lemma DoubleStarMatchesAll(name: string)
    ensures GlobMatch(name, "**")
  {
    StarMatchesAll(name);
    assert "**"[1..] == "*";
  }

  /**
   * With an empty filter name in plain mode, or a regular expression that
   * does not compile, the name hides nothing: an item is visible exactly
   * when it passes the selection filter, flipped by invert.
   */
  lemma NoNameFilter(pg: ImportFilter, item: ImportListItem)
    requires (!pg.useFilterRegex && pg.filterName == []) || (pg.useFilterRegex && pg.regexMatch.None?)
    ensures Visible(pg, item) == ((!pg.filterIsSelected || item.isSelected) != pg.useFilterInvert)
  {
    if !pg.useFilterRegex {
      assert "*" + pg.filterName + "*" == "**";
      DoubleStarMatchesAll(item.actionName);
    }
  }

  /** Invert flips every item, whatever the filter name. */
  lemma InvertFlipsAll(pg: ImportFilter, item: ImportListItem)
    ensures Visible(pg.(useFilterInvert := !pg.useFilterInvert), item) == !Visible(pg, item)
  {
  }

  function VisibleBy(pg: ImportFilter): ImportListItem -> bool
  {
    (item: ImportListItem) => Visible(pg, item)
  }

  /** `get_visible_sequences`: the items whose flag has bit 30 set, in list order. */
  method GetVisibleSequences(pg: ImportFilter, sequences: seq<ImportListItem>) returns (visibleSequences: seq<ImportListItem>)
    ensures visibleSequences == Filter(sequences, VisibleBy(pg), true)
  {
    var fltFlags := FilterSequences(pg, sequences);
    visibleSequences := [];
    for i := 0 to |fltFlags|
      invariant visibleSequences == Filter(sequences[..i], VisibleBy(pg), true)
    {
      FlagBit(Visible(pg, sequences[i]));
      FilterConcat(sequences[..i], [sequences[i]], VisibleBy(pg), true);
      assert sequences[..i + 1] == sequences[..i] + [sequences[i]];
      if fltFlags[i] & BITFLAG_FILTER_ITEM != 0 {
        visibleSequences := visibleSequences + [sequences[i]];
      }
    }
    assert sequences[..|sequences|] == sequences;
  }

  /** The visible items are exactly the listed items the filter shows. */
  lemma VisibleSequencesMembers(pg: ImportFilter, sequences: seq<ImportListItem>)
    ensures forall x :: x in Filter(sequences, VisibleBy(pg), true) <==> x in sequences && Visible(pg, x)
  {
    FilterMembers(sequences, VisibleBy(pg), true);
  }
}
