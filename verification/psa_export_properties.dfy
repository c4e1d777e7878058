// The sequence logic of the PSA export settings,
// io_scene_psk_psa/psa/export/properties.py: splitting 'forward/backward'
// names into two sequences, the NLA track picker's '<index> - <name>' strings
// and the strip list they fill, and `filter_sequences`, which computes the
// visibility flags of a sequence list.
module PsaExportProperties {
  import opened Wrappers
  import opened Text
  import opened Glob

  // ---------------------------------------------------------------------
  // Forward and backward sequences: re.match(r'(.+)/(.+)', name)
  // ---------------------------------------------------------------------

  /** The part of s that `.` can match from its start: everything before the first newline. */
  function FirstLine(s: string): (r: string)
    ensures |r| <= |s| && r == s[..|r|] && '\n' !in r
    ensures |r| < |s| ==> s[|r|] == '\n'
  {
    if s == [] || s[0] == '\n' then []
    else
      var rest := FirstLine(s[1..]);
      assert [s[0]] + rest == s[..|rest| + 1];
      [s[0]] + rest
  }

  /** A string without newlines is its own first line. */
  lemma {:induction false} FirstLineOfLine(s: string)
    requires forall i :: 0 <= i < |s| ==> s[i] != '\n'
    ensures FirstLine(s) == s
  {
    if s != [] {
      FirstLineOfLine(s[1..]);
    }
  }

  /** Whether the pattern matches name with its '/' at p: one or more characters on each side, on the first line. */
  ghost predicate SlashAt(name: string, p: nat)
  {
    var line := FirstLine(name);
    1 <= p && p + 1 < |line| && line[p] == '/'
  }

  /** The last '/' at or before q that has a character on each side. */
  function SlashSearch(line: string, q: nat): (r: Option<nat>)
    requires q + 1 < |line|
    ensures r.Some? ==> (1 <= r.value <= q && line[r.value] == '/'
      && forall k :: r.value < k <= q ==> line[k] != '/')
    ensures r.None? ==> forall k :: 1 <= k <= q ==> line[k] != '/'
  {
    if q < 1 then None
    else if line[q] == '/' then Some(q)
    else SlashSearch(line, q - 1)
  }

  /** The two groups of the pattern's match, if it matches. */
  function SplitReversedName(name: string): Option<(string, string)>
  {
    var line := FirstLine(name);
    if |line| < 2 then None
    else
      match SlashSearch(line, |line| - 2)
      case None => None
      case Some(p) => Some((line[..p], line[p + 1..]))
  }

  /**
   * The split is the pattern's match: None when it does not match, and
   * otherwise the groups around the last '/' of the first line that has a
   * character on each side (the first group is greedy), the second group
   * running to the end of that line.
   */
  lemma SplitReversedNameIsMatch(name: string)
    ensures SplitReversedName(name).None? <==> forall p: nat :: !SlashAt(name, p)
    ensures SplitReversedName(name).Some? ==> exists p: nat ::
      SlashAt(name, p) && (forall k: nat :: p < k ==> !SlashAt(name, k))
      && SplitReversedName(name).value == (FirstLine(name)[..p], FirstLine(name)[p + 1..])
  {
    var line := FirstLine(name);
    if |line| >= 2 {
      match SlashSearch(line, |line| - 2)
      case None =>
      case Some(p) =>
        assert SlashAt(name, p);
    }
  }

  /**
   * Joining a forward and a backward name with '/' and splitting again gives
   * them back, when the backward name holds no '/' and neither holds a
   * newline.
   */
  lemma SplitJoinedName(forward: string, backward: string)
    requires forward != [] && backward != []
    requires '\n' !in forward && '\n' !in backward && '/' !in backward
    ensures SplitReversedName(forward + "/" + backward) == Some((forward, backward))
  {
    var name := forward + "/" + backward;
    JoinedNameParts(forward, backward);
    FirstLineOfLine(name);
    var line := FirstLine(name);
    assert SlashSearch(line, |line| - 2) == Some(|forward|);
  }

  /** The characters of forward + "/" + backward, by position. */
  lemma JoinedNameParts(forward: string, backward: string)
    requires '\n' !in forward && '\n' !in backward && '/' !in backward
    ensures var name := forward + "/" + backward;
      && (forall i :: 0 <= i < |name| ==> name[i] != '\n')
      && name[|forward|] == '/'
      && (forall k :: |forward| < k < |name| ==> name[k] != '/')
      && name[..|forward|] == forward && name[|forward| + 1..] == backward
  {
    var name := forward + "/" + backward;
    forall i | 0 <= i < |name| ensures name[i] != '\n' && (i > |forward| ==> name[i] != '/') {
      if i < |forward| {
        assert name[i] == forward[i];
      } else if i > |forward| {
        assert name[i] == backward[i - |forward| - 1];
      }
    }
  }

  /**
   * `get_sequences_from_name_and_frame_range`: for a 'forward/backward'
   * name, the forward sequence over the range and the backward one over the
   * range reversed; for any other name, the name over the range.
   */
  function SequencesFromNameAndFrameRange<F>(name: string, frameStart: F, frameEnd: F): seq<(string, F, F)>
  {
    match SplitReversedName(name)
    case Some((forwardName, backwardName)) => [(forwardName, frameStart, frameEnd), (backwardName, frameEnd, frameStart)]
    case None => [(name, frameStart, frameEnd)]
  }

  /**
   * One sequence over the range, or two: the forward one over the range and
   * the backward one over the range reversed, whose names joined with '/'
   * give back the name's first line.
   */
  lemma SequencesFromNameShape<F>(name: string, frameStart: F, frameEnd: F)
    ensures var r := SequencesFromNameAndFrameRange(name, frameStart, frameEnd);
      && (|r| == 1 || |r| == 2)
      && (|r| == 1 <==> forall p: nat :: !SlashAt(name, p))
      && (|r| == 1 ==> r[0] == (name, frameStart, frameEnd))
      && (|r| == 2 ==> (r[0].1 == frameStart && r[0].2 == frameEnd && r[1].1 == frameEnd && r[1].2 == frameStart
                     && r[0].0 + "/" + r[1].0 == FirstLine(name) && r[0].0 != [] && r[1].0 != []))
  {
    SplitReversedNameIsMatch(name);
    match SplitReversedName(name)
    case None =>
    case Some(_) =>
      var line := FirstLine(name);
      var p := SlashSearch(line, |line| - 2).value;
      assert line == line[..p] + "/" + line[p + 1..];
  }

  // ---------------------------------------------------------------------
  // NLA track strings: f'{index} - {name}' and re.match(r'^(\d+).+$', s)
  // ---------------------------------------------------------------------

  /** The string the NLA track search offers for a track. */
  function NlaTrackSearchItem(index: nat, trackName: string): string
  {
    DecimalString(index) + " - " + trackName
  }

  /** `nla_track_search_cb`: one string per track, in track order. */
  function NlaTrackSearchItems(trackNames: seq<string>): (r: seq<string>)
    ensures |r| == |trackNames|
    ensures forall i :: 0 <= i < |r| ==> r[i] == NlaTrackSearchItem(i, trackNames[i])
  {
    seq(|trackNames|, i requires 0 <= i < |trackNames| => NlaTrackSearchItem(i, trackNames[i]))
  }

  /** Whether `.+$` matches t: one or more non-newline characters, then the end or a final newline. */
  predicate TailOk(t: string)
  {
    (t != [] && '\n' !in t) || (|t| >= 2 && t[|t| - 1] == '\n' && '\n' !in t[..|t| - 1])
  }

  /** The number of digits s starts with. */
  function LeadingDigits(s: string): (n: nat)
    ensures n <= |s| && (forall i :: 0 <= i < n ==> IsDigit(s[i]))
    ensures n < |s| ==> !IsDigit(s[n])
  {
    if s == [] || !IsDigit(s[0]) then 0
    else
      var n := 1 + LeadingDigits(s[1..]);
      assert forall i :: 1 <= i < n ==> s[i] == s[1..][i - 1];
      n
  }

  /** A run of digits at the start lies within the leading digits. */
  lemma {:induction false} DigitRunWithinLeading(s: string, g: nat)
    requires g <= |s| && forall i :: 0 <= i < g ==> IsDigit(s[i])
    ensures g <= LeadingDigits(s)
  {
    if g > 0 {
      assert forall i :: 0 <= i < g - 1 ==> IsDigit(s[1..][i]);
      DigitRunWithinLeading(s[1..], g - 1);
    }
  }

  /** Whether the pattern matches s with a digit group of length g. */
  ghost predicate TrackGroupAt(s: string, g: nat)
  {
    1 <= g <= |s| && (forall i :: 0 <= i < g ==> IsDigit(s[i])) && TailOk(s[g..])
  }

  /** The longest digit group, at most g long, after which the rest matches. */
  function GroupSearch(s: string, g: nat): (r: Option<nat>)
    requires g <= LeadingDigits(s)
    ensures r.Some? ==> 1 <= r.value <= g && TailOk(s[r.value..]) && forall k :: r.value < k <= g ==> !TailOk(s[k..])
    ensures r.None? ==> forall k :: 1 <= k <= g ==> !TailOk(s[k..])
  {
    if g == 0 then None
    else if TailOk(s[g..]) then Some(g)
    else GroupSearch(s, g - 1)
  }

  /** The track index `nla_track_update_cb` reads from a track string, -1 when the pattern does not match. */
  function ParseNlaTrackIndex(s: string): int
  {
    match GroupSearch(s, LeadingDigits(s))
    case None => -1
    case Some(g) =>
      assert forall i :: 0 <= i < g ==> IsDigit(s[..g][i]);
      DigitsValue(s[..g])
  }

  /**
   * The index is the value of the pattern's digit group, the longest one the
   * rest of the string lets match (the group is greedy), and -1 when no
   * group matches.
   */
  lemma ParseNlaTrackIndexIsMatch(s: string)
    ensures ParseNlaTrackIndex(s) == -1 <==> forall g: nat :: !TrackGroupAt(s, g)
    ensures ParseNlaTrackIndex(s) != -1 ==> exists g: nat ::
      TrackGroupAt(s, g) && (forall k: nat :: g < k ==> !TrackGroupAt(s, k))
      && (forall i :: 0 <= i < g ==> IsDigit(s[..g][i])) && ParseNlaTrackIndex(s) == DigitsValue(s[..g])
  {
    var n := LeadingDigits(s);
    forall g: nat | TrackGroupAt(s, g) ensures g <= n {
      DigitRunWithinLeading(s, g);
    }
    match GroupSearch(s, n)
    case None =>
    case Some(g) =>
      assert TrackGroupAt(s, g);
  }

  /** A string the search offers reads back as its track's index. */
  lemma NlaTrackSearchRoundTrip(index: nat, trackName: string)
    requires '\n' !in trackName
    ensures ParseNlaTrackIndex(NlaTrackSearchItem(index, trackName)) == index
  {
    var d := DecimalString(index);
    var s := NlaTrackSearchItem(index, trackName);
    assert s[..|d|] == d && s[|d|..] == " - " + trackName;
    assert !IsDigit(s[|d|]);
    assert forall i :: 0 <= i < |d| ==> IsDigit(s[i]);
    DigitRunWithinLeading(s, |d|);
    assert '\n' !in s[|d|..] by {
      assert forall i :: 0 <= i < |s[|d|..]| ==> s[|d|..][i] != '\n' by {
        forall i | 0 <= i < |s[|d|..]| ensures s[|d|..][i] != '\n' {
          if i >= 3 {
            assert s[|d|..][i] == trackName[i - 3];
          }
        }
      }
    }
    assert TailOk(s[|d|..]);
    DigitsValueOfDecimal(index);
  }

  /** A string that does not start with a digit gives -1. */
  lemma NoLeadingDigit(s: string)
    requires s == [] || !IsDigit(s[0])
    ensures ParseNlaTrackIndex(s) == -1
  {
  }

  // ---------------------------------------------------------------------
  // The NLA strip list: nla_track_update_cb
  // ---------------------------------------------------------------------

  /** A strip of an NLA track: its name, its action, if any, and its frame range. */
  datatype NlaStrip = NlaStrip(name: string, action: Option<string>, frameStart: real, frameEnd: real)

  datatype NlaTrack = NlaTrack(name: string, strips: seq<NlaStrip>)

  /** An entry of the export's NLA strip list. */
  datatype NlaStripListItem = NlaStripListItem(name: string, action: Option<string>, frameStart: real, frameEnd: real, isSelected: bool)

  /** The list entries of one strip: one per sequence its name gives. */
  function StripItems(strip: NlaStrip): (r: seq<NlaStripListItem>)
    ensures |r| == |SequencesFromNameAndFrameRange(strip.name, strip.frameStart, strip.frameEnd)|
  {
    var sequences := SequencesFromNameAndFrameRange(strip.name, strip.frameStart, strip.frameEnd);
    seq(|sequences|, i requires 0 <= i < |sequences| =>
      NlaStripListItem(sequences[i].0, strip.action, sequences[i].1, sequences[i].2, true))
  }

  /** The list entries of a track's strips, strip by strip. */
  function TrackItems(strips: seq<NlaStrip>): seq<NlaStripListItem>
  {
    if strips == [] then []
    else TrackItems(strips[..|strips| - 1]) + StripItems(strips[|strips| - 1])
  }

  lemma TrackItemsStep(strips: seq<NlaStrip>, i: nat)
    requires i < |strips|
    ensures TrackItems(strips[..i + 1]) == TrackItems(strips[..i]) + StripItems(strips[i])
  {
    assert strips[..i + 1][..i] == strips[..i];
  }

  /** An entry taken from a strip: selected, with its action and its frame range, forwards or reversed. */
  predicate FromStrip(item: NlaStripListItem, strip: NlaStrip)
  {
    && item.isSelected
    && item.action == strip.action
    && ((item.frameStart == strip.frameStart && item.frameEnd == strip.frameEnd)
        || (item.frameStart == strip.frameEnd && item.frameEnd == strip.frameStart))
  }

  /** A strip gives one or two entries, each taken from it. */
  lemma StripItemsShape(strip: NlaStrip)
    ensures 1 <= |StripItems(strip)| <= 2
    ensures forall item :: item in StripItems(strip) ==> FromStrip(item, strip)
  {
    SequencesFromNameShape(strip.name, strip.frameStart, strip.frameEnd);
  }

  /** The strip list holds one or two entries per strip, each taken from one of the strips. */
  lemma {:induction false} TrackItemsShape(strips: seq<NlaStrip>)
    ensures |strips| <= |TrackItems(strips)| <= 2 * |strips|
    ensures forall item :: item in TrackItems(strips) ==> exists j :: 0 <= j < |strips| && FromStrip(item, strips[j])
  {
    if strips != [] {
      var front := strips[..|strips| - 1];
      var last := strips[|strips| - 1];
      TrackItemsShape(front);
      StripItemsShape(last);
      forall item | item in TrackItems(strips) ensures exists j :: 0 <= j < |strips| && FromStrip(item, strips[j]) {
        if item in TrackItems(front) {
          var j :| 0 <= j < |front| && FromStrip(item, front[j]);
          assert front[j] == strips[j];
        } else {
          assert FromStrip(item, strips[|strips| - 1]);
        }
      }
    }
  }

  /** The NLA part of the PSA export settings. */
  class NlaStripSettings {
    var nlaTrack: string
    var nlaTrackIndex: int
    var nlaStripList: seq<NlaStripListItem>

    constructor()
      ensures nlaTrack == "" && nlaTrackIndex == -1 && nlaStripList == []
    {
      nlaTrack := "";
      nlaTrackIndex := -1;
      nlaStripList := [];
    }

    /**
     * `nla_track_update_cb`, given the NLA tracks of the animation data in
     * use (None without animation data): the strip list is cleared, the
     * track index read from the track string and, for a track that exists,
     * the list refilled from its strips. An index past the last track
     * raises IndexError with the list left empty.
     */
    method NlaTrackUpdate(animationData: Option<seq<NlaTrack>>) returns (err: Option<Error>)
      modifies this
      ensures nlaTrack == old(nlaTrack)
      ensures nlaTrackIndex == ParseNlaTrackIndex(nlaTrack)
      ensures nlaTrackIndex < 0 || animationData.None? ==> err.None? && nlaStripList == []
      ensures nlaTrackIndex >= 0 && animationData.Some? && nlaTrackIndex >= |animationData.value| ==>
        err == Some(IndexError) && nlaStripList == []
      ensures nlaTrackIndex >= 0 && animationData.Some? && nlaTrackIndex < |animationData.value| ==>
        err.None? && nlaStripList == TrackItems(animationData.value[nlaTrackIndex].strips)
    {
      nlaStripList := [];
      nlaTrackIndex := ParseNlaTrackIndex(nlaTrack);
      if nlaTrackIndex < 0 || animationData.None? {
        return None;
      }
      if nlaTrackIndex >= |animationData.value| {
        return Some(IndexError);
      }
      var items := StripListItems(animationData.value[nlaTrackIndex].strips);
      nlaStripList := items;
      return None;
    }
  }

  /** The entries of a track's strips, built strip by strip and sequence by sequence. */
  method StripListItems(strips: seq<NlaStrip>) returns (items: seq<NlaStripListItem>)
    ensures items == TrackItems(strips)
  {
    items := [];
    for i := 0 to |strips|
      invariant items == TrackItems(strips[..i])
    {
      TrackItemsStep(strips, i);
      var added := StripEntries(strips[i]);
      items := items + added;
    }
    assert strips[..|strips|] == strips;
  }

  /** The inner loop over one strip's sequences: an entry for each. */
  method StripEntries(strip: NlaStrip) returns (added: seq<NlaStripListItem>)
    ensures added == StripItems(strip)
  {
    var sequences := SequencesFromNameAndFrameRange(strip.name, strip.frameStart, strip.frameEnd);
    added := [];
    for j := 0 to |sequences|
      invariant |added| == j
      invariant forall k :: 0 <= k < j ==> added[k] == NlaStripListItem(sequences[k].0, strip.action, sequences[k].1, sequences[k].2, true)
    {
      added := added + [NlaStripListItem(sequences[j].0, strip.action, sequences[j].1, sequences[j].2, true)];
    }
  }

  // ---------------------------------------------------------------------
  // filter_sequences
  // ---------------------------------------------------------------------

  const BITFLAG_FILTER_ITEM: bv32 := 1 << 30

  /** The list filter settings of the export. */
  datatype SequenceFilter = SequenceFilter(
    filterName: string,
    useFilterInvert: bool,
    filterAsset: bool,
    filterPoseMarker: bool,
    filterReversed: bool)

  /**
   * An item of a sequence list as the filter sees it: its name, whether it
   * has an action that is an asset, whether it has an is_pose_marker that is
   * set, its frame range and whether it is selected for export (which no
   * filter looks at).
   */
  datatype SequenceListItem = SequenceListItem(name: string, assetBacked: bool, isPoseMarker: bool, frameStart: real, frameEnd: real, isSelected: bool)

  /** Shown by the name filter: always without a filter; else when the name matches, or does not when inverted. */
  predicate NameShown(pg: SequenceFilter, item: SequenceListItem)
  {
    pg.filterName == [] || (GlobMatch(item.name, "*" + pg.filterName + "*") != pg.useFilterInvert)
  }

  /** Shown by every filter. */
  predicate Shown(pg: SequenceFilter, item: SequenceListItem)
  {
    && NameShown(pg, item)
    && (pg.filterAsset || !item.assetBacked)
    && (pg.filterPoseMarker || !item.isPoseMarker)
    && (pg.filterReversed || item.frameStart <= item.frameEnd)
  }

  /** The flag of an item after the first `stage` passes of `filter_sequences`. */
  predicate ShownAfter(pg: SequenceFilter, item: SequenceListItem, stage: nat)
  {
    && (stage != 1 || pg.filterName == [] || GlobMatch(item.name, "*" + pg.filterName + "*"))
    && (stage < 2 || NameShown(pg, item))
    && (stage < 3 || pg.filterAsset || !item.assetBacked)
    && (stage < 4 || pg.filterPoseMarker || !item.isPoseMarker)
    && (stage < 5 || pg.filterReversed || item.frameStart <= item.frameEnd)
  }

  function Flag(shown: bool): bv32
  {
    if shown then BITFLAG_FILTER_ITEM else 0
  }

  /** All flags as they stand after `stage` passes. */
  ghost predicate FlagsAfter(pg: SequenceFilter, sequences: seq<SequenceListItem>, fltFlags: seq<bv32>, stage: nat)
  {
    |fltFlags| == |sequences| && forall i :: 0 <= i < |sequences| ==> fltFlags[i] == Flag(ShownAfter(pg, sequences[i], stage))
  }

  /** A flag cleared by `&= ~bitflag_filter_item`. */
  lemma ClearFlag(shown: bool)
    ensures Flag(shown) & !BITFLAG_FILTER_ITEM == Flag(false)
  {
  }

  /** Bit 30 of a filter flag is set exactly for a shown item. */
  lemma FlagBit(shown: bool)
    ensures (Flag(shown) & BITFLAG_FILTER_ITEM != 0) == shown
  {
  }

  /** A flag flipped by `^= bitflag_filter_item`. */
  lemma FlipFlag(shown: bool)
    ensures Flag(shown) ^ BITFLAG_FILTER_ITEM == Flag(!shown)
  {
  }

  /**
   * `filter_sequences`: one flag per item, bit 30 for a shown item and 0
   * for a hidden one, computed in five passes over the list.
   */
  method FilterSequences(pg: SequenceFilter, sequences: seq<SequenceListItem>) returns (fltFlags: seq<bv32>)
    ensures |fltFlags| == |sequences|
    ensures forall i :: 0 <= i < |sequences| ==> fltFlags[i] == Flag(Shown(pg, sequences[i]))
  {
    fltFlags := seq(|sequences|, _ => BITFLAG_FILTER_ITEM);
    assert FlagsAfter(pg, sequences, fltFlags, 0);
    var pattern := "*" + pg.filterName + "*";
    if pg.filterName != [] {
      for i := 0 to |sequences|
        invariant |fltFlags| == |sequences|
        invariant forall k :: 0 <= k < i ==> fltFlags[k] == Flag(ShownAfter(pg, sequences[k], 1))
        invariant forall k :: i <= k < |sequences| ==> fltFlags[k] == Flag(ShownAfter(pg, sequences[k], 0))
      {
        if !GlobMatch(sequences[i].name, pattern) {
          ClearFlag(true);
          fltFlags := fltFlags[i := fltFlags[i] & !BITFLAG_FILTER_ITEM];
        }
      }
      if pg.useFilterInvert {
        for i := 0 to |sequences|
          invariant |fltFlags| == |sequences|
          invariant forall k :: 0 <= k < i ==> fltFlags[k] == Flag(ShownAfter(pg, sequences[k], 2))
          invariant forall k :: i <= k < |sequences| ==> fltFlags[k] == Flag(ShownAfter(pg, sequences[k], 1))
        {
          FlipFlag(ShownAfter(pg, sequences[i], 1));
          fltFlags := fltFlags[i := fltFlags[i] ^ BITFLAG_FILTER_ITEM];
        }
      } else {
        assert FlagsAfter(pg, sequences, fltFlags, 2);
      }
    } else {
      assert FlagsAfter(pg, sequences, fltFlags, 2);
    }
    fltFlags := HideWhere(pg, sequences, fltFlags, 3);
    fltFlags := HideWhere(pg, sequences, fltFlags, 4);
    fltFlags := HideWhere(pg, sequences, fltFlags, 5);
  }

  /** Whether pass `stage` (3 to 5) hides an item: assets, pose markers, reversed ranges. */
  predicate HiddenBy(pg: SequenceFilter, item: SequenceListItem, stage: nat)
  {
    if stage == 3 then !pg.filterAsset && item.assetBacked
    else if stage == 4 then !pg.filterPoseMarker && item.isPoseMarker
    else !pg.filterReversed && item.frameStart > item.frameEnd
  }

  /** One of the last three passes: clears the flag of every item it hides. */
  method HideWhere(pg: SequenceFilter, sequences: seq<SequenceListItem>, flags: seq<bv32>, stage: nat) returns (fltFlags: seq<bv32>)
    requires 3 <= stage <= 5
    requires FlagsAfter(pg, sequences, flags, stage - 1)
    ensures FlagsAfter(pg, sequences, fltFlags, stage)
  {
    fltFlags := flags;
    for i := 0 to |sequences|
      invariant |fltFlags| == |sequences|
      invariant forall k :: 0 <= k < i ==> fltFlags[k] == Flag(ShownAfter(pg, sequences[k], stage))
      invariant forall k :: i <= k < |sequences| ==> fltFlags[k] == Flag(ShownAfter(pg, sequences[k], stage - 1))
    {
      if HiddenBy(pg, sequences[i], stage) {
        ClearFlag(ShownAfter(pg, sequences[i], stage - 1));
        fltFlags := fltFlags[i := fltFlags[i] & !BITFLAG_FILTER_ITEM];
      }
    }
  }

  /**
   * With no filter set, every item is shown; a hidden item is one that an
   * enabled filter rejects; invert flips only the name test, and only when
   * there is a name filter.
   */
  lemma FilterMeaning(pg: SequenceFilter, item: SequenceListItem)
    ensures pg.filterName == [] && pg.filterAsset && pg.filterPoseMarker && pg.filterReversed ==> Shown(pg, item)
    ensures pg.filterName == [] ==> Shown(pg, item) == Shown(pg.(useFilterInvert := !pg.useFilterInvert), item)
    ensures pg.filterName != [] && pg.filterAsset && pg.filterPoseMarker && pg.filterReversed ==>
      Shown(pg, item) != Shown(pg.(useFilterInvert := !pg.useFilterInvert), item)
  {
  }
}
