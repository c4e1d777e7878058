// The sequence logic of the PSA export operators,
// io_scene_psk_psa/psa/export/operators.py: which list a sequence source
// uses, the sequences an action and its pose markers give, the frame ranges
// of timeline markers, the fps and compression ratio choice, the visible
// sequences, the legacy test of whether an action animates an armature, and
// select / deselect all.
module PsaExportOperators {
  import opened Wrappers
  import opened Text
  import opened Seqs
  import opened SemVer
  import opened PsaExportProperties
  import StableSort
  import Nla

  // ---------------------------------------------------------------------
  // get_sequences_propnames_from_source
  // ---------------------------------------------------------------------

  /**
   * The list property and its index property for a sequence source; an
   * unknown source fails the function's assertion.
   */
  function GetSequencesPropnamesFromSource(sequenceSource: string): (r: Result<(string, string)>)
    ensures r.Err? <==> sequenceSource !in {"ACTIONS", "TIMELINE_MARKERS", "NLA_TRACK_STRIPS", "ACTIVE_ACTION"}
    ensures r.Err? ==> r.error == AssertionError
    ensures r.Ok? ==> r.value.1 == r.value.0 + "_index"
  {
    if sequenceSource == "ACTIONS" then Ok(("action_list", "action_list_index"))
    else if sequenceSource == "TIMELINE_MARKERS" then Ok(("marker_list", "marker_list_index"))
    else if sequenceSource == "NLA_TRACK_STRIPS" then Ok(("nla_strip_list", "nla_strip_list_index"))
    else if sequenceSource == "ACTIVE_ACTION" then Ok(("active_action_list", "active_action_list_index"))
    else Err(AssertionError)
  }

  /** Different sources use different lists. */
  lemma PropnamesDistinct(a: string, b: string)
    requires GetSequencesPropnamesFromSource(a).Ok? && GetSequencesPropnamesFromSource(b).Ok?
    requires a != b
    ensures GetSequencesPropnamesFromSource(a).value.0 != GetSequencesPropnamesFromSource(b).value.0
  {
  }

  // ---------------------------------------------------------------------
  // Actions and pose markers
  // ---------------------------------------------------------------------

  /** Python's int() of a float: truncation toward zero. */
  function Trunc(x: real): int
  {
    if x >= 0.0 then x.Floor else -((-x).Floor)
  }

  lemma TruncMonotone(x: real, y: real)
    requires x <= y
    ensures Trunc(x) <= Trunc(y)
  {
  }

  lemma TruncOfInt(n: int)
    ensures Trunc(n as real) == n
  {
  }

  predicate StartsWith(s: string, c: char)
  {
    s != [] && s[0] == c
  }

  /** A marker on an action's timeline. */
  datatype PoseMarker = PoseMarker(name: string, frame: int)

  /**
   * An action as the export sees it: its name, its frame range, its pose
   * markers, whether it is an asset, the data paths of its f-curves and its
   * export fps and compression ratio.
   */
  datatype Action = Action(
    name: string,
    frameRange: (real, real),
    poseMarkers: seq<PoseMarker>,
    isAsset: bool,
    fcurvePaths: seq<string>,
    fps: real,
    compressionRatio: real)

  /**
   * `get_sequences_from_action`: nothing for an empty or '#' name; a single
   * frame at the truncated start, under the name without its '!', for a '!'
   * name; the truncated frame range otherwise.
   */
  function GetSequencesFromAction(action: Action): seq<(string, int, int)>
  {
    if action.name == [] || action.name[0] == '#' then []
    else
      var frameStart := Trunc(action.frameRange.0);
      if action.name[0] == '!' then SequencesFromNameAndFrameRange(action.name[1..], frameStart, frameStart)
      else SequencesFromNameAndFrameRange(action.name, frameStart, Trunc(action.frameRange.1))
  }

  /**
   * An action gives no sequence exactly when its name is empty or starts
   * with '#'; a '!' action gives only one-frame sequences at its truncated
   * start; any other gives its truncated range forwards (and, for a
   * 'forward/backward' name, backwards too).
   */
  lemma ActionSequences(action: Action)
    ensures var r := GetSequencesFromAction(action);
      && (r == [] <==> action.name == [] || action.name[0] == '#')
      && |r| <= 2
      && (StartsWith(action.name, '!') ==>
            forall i :: 0 <= i < |r| ==> r[i].1 == Trunc(action.frameRange.0) && r[i].2 == Trunc(action.frameRange.0))
      && (action.name != [] && action.name[0] != '#' && action.name[0] != '!' ==>
            r[0].1 == Trunc(action.frameRange.0) && r[0].2 == Trunc(action.frameRange.1)
            && (|r| == 2 ==> r[1].1 == Trunc(action.frameRange.1) && r[1].2 == Trunc(action.frameRange.0)))
  {
    if action.name != [] && action.name[0] != '#' {
      var frameStart := Trunc(action.frameRange.0);
      if action.name[0] == '!' {
        SequencesFromNameShape(action.name[1..], frameStart, frameStart);
      } else {
        SequencesFromNameShape(action.name, frameStart, Trunc(action.frameRange.1));
      }
    }
  }

  /**
   * `get_sequences_from_action_pose_markers`: a '!' marker is one frame
   * under its name without the '!'; any other runs to the next marker's
   * frame, and the last one to the action's truncated end.
   */
  function GetSequencesFromActionPoseMarkers(action: Action, poseMarkers: seq<PoseMarker>, poseMarkerIndex: nat): seq<(string, int, int)>
    requires poseMarkerIndex < |poseMarkers|
  {
    var poseMarker := poseMarkers[poseMarkerIndex];
    if StartsWith(poseMarker.name, '!') then
      SequencesFromNameAndFrameRange(poseMarker.name[1..], poseMarker.frame, poseMarker.frame)
    else if poseMarkerIndex + 1 < |poseMarkers| then
      SequencesFromNameAndFrameRange(poseMarker.name, poseMarker.frame, poseMarkers[poseMarkerIndex + 1].frame)
    else
      SequencesFromNameAndFrameRange(poseMarker.name, poseMarker.frame, Trunc(action.frameRange.1))
  }

  function MarkerFrame(poseMarker: PoseMarker): int
  {
    poseMarker.frame
  }

  /** The pose markers in frame order, markers on the same frame in their own order. */
  function SortedPoseMarkers(action: Action): (r: seq<PoseMarker>)
    ensures StableSort.SortedByKey(r, MarkerFrame) && multiset(r) == multiset(action.poseMarkers)
  {
    StableSort.SortByKey(action.poseMarkers, MarkerFrame)
  }

  /** A pose marker that gives no sequence: a blank name, or one starting with '#'. */
  predicate SkippedName(name: string)
  {
    (forall i :: 0 <= i < |name| ==> IsSpace(name[i])) || StartsWith(name, '#')
  }

  /** A list entry for a sequence of an action. */
  function ActionItem(action: Action, sequence: (string, int, int), isPoseMarker: bool): SequenceListItem
  {
    SequenceListItem(sequence.0, action.isAsset, isPoseMarker, sequence.1 as real, sequence.2 as real, false)
  }

  function ActionItems(action: Action, sequences: seq<(string, int, int)>, isPoseMarker: bool): (r: seq<SequenceListItem>)
    ensures |r| == |sequences|
    ensures forall i :: 0 <= i < |r| ==> r[i] == ActionItem(action, sequences[i], isPoseMarker)
  {
    seq(|sequences|, i requires 0 <= i < |sequences| => ActionItem(action, sequences[i], isPoseMarker))
  }

  /** The list entries of an action's sequences, added one by one, unselected. */
  method AddActionItems(action: Action, sequences: seq<(string, int, int)>, isPoseMarker: bool) returns (added: seq<SequenceListItem>)
    ensures added == ActionItems(action, sequences, isPoseMarker)
  {
    added := [];
    for j := 0 to |sequences|
      invariant added == ActionItems(action, sequences, isPoseMarker)[..j]
    {
      added := added + [SequenceListItem(sequences[j].0, action.isAsset, isPoseMarker, sequences[j].1 as real, sequences[j].2 as real, false)];
    }
  }

  /** The entries of the pose marker at position i of the sorted markers. */
  function PoseMarkerEntries(action: Action, sorted: seq<PoseMarker>, i: nat): seq<SequenceListItem>
    requires i < |sorted|
  {
    if SkippedName(sorted[i].name) then []
    else ActionItems(action, GetSequencesFromActionPoseMarkers(action, sorted, i), true)
  }

  /** The entries an action's pose markers add to the action list, marker by marker. */
  function PoseMarkerItems(action: Action, sorted: seq<PoseMarker>): seq<SequenceListItem>
  {
    Concat(seq(|sorted|, i requires 0 <= i < |sorted| => PoseMarkerEntries(action, sorted, i)))
  }

  /**
   * The pose-marker part of `update_actions_and_timeline_markers` for one
   * action: the markers sorted by frame, and the sequences of each marker
   * that is not skipped added as unselected pose-marker entries.
   */
  method CollectPoseMarkerItems(action: Action) returns (items: seq<SequenceListItem>)
    ensures items == PoseMarkerItems(action, SortedPoseMarkers(action))
  {
    var poseMarkers := SortedPoseMarkers(action);
    var pieces := seq(|poseMarkers|, i requires 0 <= i < |poseMarkers| => PoseMarkerEntries(action, poseMarkers, i));
    items := [];
    for poseMarkerIndex := 0 to |poseMarkers|
      invariant items == Concat(pieces[..poseMarkerIndex])
    {
      ConcatSnoc(pieces, poseMarkerIndex);
      var poseMarker := poseMarkers[poseMarkerIndex];
      if SkippedName(poseMarker.name) {
        continue;
      }
      var sequences := GetSequencesFromActionPoseMarkers(action, poseMarkers, poseMarkerIndex);
      var added := AddActionItems(action, sequences, true);
      items := items + added;
    }
    assert pieces[..|poseMarkers|] == pieces;
  }

  /**
   * With the markers in frame order, the forward sequence of a marker that
   * is not the last never runs backwards, and a '!' marker is one frame.
   */
  lemma PoseMarkerRanges(action: Action, i: nat)
    requires i < |SortedPoseMarkers(action)|
    ensures var sorted := SortedPoseMarkers(action);
      var r := GetSequencesFromActionPoseMarkers(action, sorted, i);
      && 1 <= |r| <= 2
      && r[0].1 == sorted[i].frame
      && (StartsWith(sorted[i].name, '!') ==> forall k :: 0 <= k < |r| ==> r[k].1 == r[k].2 == sorted[i].frame)
      && (!StartsWith(sorted[i].name, '!') && i + 1 < |sorted| ==> r[0].1 <= r[0].2 == sorted[i + 1].frame)
      && (!StartsWith(sorted[i].name, '!') && i + 1 == |sorted| ==> r[0].2 == Trunc(action.frameRange.1))
  {
    var sorted := SortedPoseMarkers(action);
    var m := sorted[i];
    if StartsWith(m.name, '!') {
      SequencesFromNameShape(m.name[1..], m.frame, m.frame);
    } else if i + 1 < |sorted| {
      SequencesFromNameShape(m.name, m.frame, sorted[i + 1].frame);
      assert MarkerFrame(sorted[i]) <= MarkerFrame(sorted[i + 1]);
    } else {
      SequencesFromNameShape(m.name, m.frame, Trunc(action.frameRange.1));
    }
  }

  /** Every pose-marker entry is an unselected pose-marker entry of a marker that is not skipped. */
  lemma PoseMarkerItemsFrom(action: Action, sorted: seq<PoseMarker>, item: SequenceListItem)
    requires item in PoseMarkerItems(action, sorted)
    ensures item.isPoseMarker && !item.isSelected && item.assetBacked == action.isAsset
    ensures exists i :: (0 <= i < |sorted| && !SkippedName(sorted[i].name)
      && item in ActionItems(action, GetSequencesFromActionPoseMarkers(action, sorted, i), true))
  {
    var pieces := seq(|sorted|, i requires 0 <= i < |sorted| => PoseMarkerEntries(action, sorted, i));
    var i := ConcatMember(pieces, item);
  }

  /** A member of a concatenation lies in one of its pieces. */
  lemma {:induction false} ConcatMember<T>(rs: seq<seq<T>>, x: T) returns (k: nat)
    requires x in Concat(rs)
    ensures k < |rs| && x in rs[k]
  {
    if x in rs[0] {
      k := 0;
    } else {
      assert x in Concat(rs[1..]);
      var k' := ConcatMember(rs[1..], x);
      k := k' + 1;
    }
  }

  // ---------------------------------------------------------------------
  // get_timeline_marker_sequence_frame_ranges
  // ---------------------------------------------------------------------

  /** A marker on the scene's timeline. */
  datatype TimelineMarker = TimelineMarker(name: string, frame: int)

  function TimelineFrame(marker: TimelineMarker): int
  {
    marker.frame
  }

  function MarkerNames(markers: seq<TimelineMarker>): (r: seq<string>)
    ensures |r| == |markers| && forall i :: 0 <= i < |r| ==> r[i] == markers[i].name
  {
    seq(|markers|, i requires 0 <= i < |markers| => markers[i].name)
  }

  /** The position of the first marker with a name, as a name lookup and `list.index` find it. */
  function FirstMarkerIndex(markers: seq<TimelineMarker>, name: string): (r: nat)
    requires name in MarkerNames(markers)
    ensures r < |markers| && markers[r].name == name
    ensures forall k :: 0 <= k < r ==> markers[k].name != name
  {
    if markers[0].name == name then 0
    else
      assert MarkerNames(markers[1..]) == MarkerNames(markers)[1..];
      1 + FirstMarkerIndex(markers[1..], name)
  }

  /** The timeline markers in frame order. */
  function SortedTimelineMarkers(markers: seq<TimelineMarker>): (r: seq<TimelineMarker>)
    ensures StableSort.SortedByKey(r, TimelineFrame) && multiset(r) == multiset(markers) && |r| == |markers|
  {
    StableSort.SortByKey(markers, TimelineFrame)
  }

  /** A sorted copy holds the same names. */
  lemma SortedMarkerNames(markers: seq<TimelineMarker>, name: string)
    requires name in MarkerNames(markers)
    ensures name in MarkerNames(SortedTimelineMarkers(markers))
  {
    var i := FirstMarkerIndex(markers, name);
    var sorted := SortedTimelineMarkers(markers);
    assert markers[i] in multiset(sorted);
    var j :| 0 <= j < |sorted| && sorted[j] == markers[i];
    assert MarkerNames(sorted)[j] == name;
  }

  /** The smallest start of a non-empty list of strips. */
  function MinStart(strips: seq<Nla.Strip>): (r: real)
    requires strips != []
    ensures (exists x :: x in strips && x.frameStart == r) && forall x :: x in strips ==> r <= x.frameStart
  {
    if |strips| == 1 then strips[0].frameStart
    else
      var rest := MinStart(strips[1..]);
      assert forall x :: x in strips ==> x == strips[0] || x in strips[1..];
      if strips[0].frameStart <= rest then strips[0].frameStart else rest
  }

  /** The largest end of a non-empty list of strips. */
  function MaxEnd(strips: seq<Nla.Strip>): (r: real)
    requires strips != []
    ensures (exists x :: x in strips && x.frameEnd == r) && forall x :: x in strips ==> x.frameEnd <= r
  {
    if |strips| == 1 then strips[0].frameEnd
    else
      var rest := MaxEnd(strips[1..]);
      assert forall x :: x in strips ==> x == strips[0] || x in strips[1..];
      if strips[0].frameEnd >= rest then strips[0].frameEnd else rest
  }

  function MaxReal(a: real, b: real): real
  {
    if a >= b then a else b
  }

  /** The end of the last marker's sequence: 0 raised to every end of a strip on an unmuted track. */
  function UnmutedMaxEnd(tracks: seq<Nla.NlaTrack>): real
  {
    if tracks == [] then 0.0
    else
      var last := tracks[|tracks| - 1];
      var front := UnmutedMaxEnd(tracks[..|tracks| - 1]);
      if last.mute then front else StripsMaxEnd(front, last.strips)
  }

  /** frameEnd raised to every end in strips. */
  function StripsMaxEnd(frameEnd: real, strips: seq<Nla.Strip>): real
  {
    if strips == [] then frameEnd
    else MaxReal(StripsMaxEnd(frameEnd, strips[..|strips| - 1]), strips[|strips| - 1].frameEnd)
  }

  lemma {:induction false} StripsMaxEndBounds(frameEnd: real, strips: seq<Nla.Strip>)
    ensures frameEnd <= StripsMaxEnd(frameEnd, strips)
    ensures forall x :: x in strips ==> x.frameEnd <= StripsMaxEnd(frameEnd, strips)
    ensures StripsMaxEnd(frameEnd, strips) == frameEnd || exists x :: x in strips && x.frameEnd == StripsMaxEnd(frameEnd, strips)
  {
    if strips != [] {
      var front := strips[..|strips| - 1];
      StripsMaxEndBounds(frameEnd, front);
      assert forall x :: x in strips ==> x in front || x == strips[|strips| - 1];
      assert forall x :: x in front ==> x in strips;
    }
  }

  /**
   * The last marker's end is the largest end of a strip on an unmuted track,
   * or 0 when that is negative or there is no such strip.
   */
  lemma {:induction false} UnmutedMaxEndIsMax(tracks: seq<Nla.NlaTrack>)
    ensures 0.0 <= UnmutedMaxEnd(tracks)
    ensures forall t, x :: 0 <= t < |tracks| && !tracks[t].mute && x in tracks[t].strips ==> x.frameEnd <= UnmutedMaxEnd(tracks)
    ensures UnmutedMaxEnd(tracks) == 0.0
      || exists t, x :: 0 <= t < |tracks| && !tracks[t].mute && x in tracks[t].strips && x.frameEnd == UnmutedMaxEnd(tracks)
  {
    if tracks != [] {
      var front := tracks[..|tracks| - 1];
      var last := tracks[|tracks| - 1];
      UnmutedMaxEndIsMax(front);
      assert forall t :: 0 <= t < |front| ==> front[t] == tracks[t];
      if !last.mute {
        StripsMaxEndBounds(UnmutedMaxEnd(front), last.strips);
      }
    }
  }

  /**
   * The range of one marker's sequence before the start > end test: with a
   * next marker in frame order, the overlapping strips' extent clamped to
   * the two markers, or the marker's own frame when no strip overlaps;
   * without one, the marker's frame to the last strip end.
   */
  function MarkerRealRange(tracks: seq<Nla.NlaTrack>, markers: seq<TimelineMarker>, markerName: string): (real, real)
    requires markerName in MarkerNames(markers)
  {
    RangeToNext(tracks, markers[FirstMarkerIndex(markers, markerName)].frame, NextMarkerFrame(markers, markerName))
  }

  /** The frame of the marker after the named one in frame order, if any. */
  function NextMarkerFrame(markers: seq<TimelineMarker>, markerName: string): Option<int>
    requires markerName in MarkerNames(markers)
  {
    var sorted := SortedTimelineMarkers(markers);
    SortedMarkerNames(markers, markerName);
    var nextMarkerIndex := FirstMarkerIndex(sorted, markerName) + 1;
    if nextMarkerIndex < |sorted| then Some(sorted[nextMarkerIndex].frame) else None
  }

  /**
   * The range from a marker's frame: up to the next marker's frame, if any,
   * as `MarkerRealRange` says.
   */
  function RangeToNext(tracks: seq<Nla.NlaTrack>, frame: int, next: Option<int>): (real, real)
  {
    var frameStart := frame as real;
    match next
    case Some(nextFrame) =>
      var frameEnd := nextFrame as real;
      var nlaStrips := Nla.GetNlaStripsInFrameRange(Some(tracks), frameStart, frameEnd);
      if |nlaStrips| > 0 then
        ((if frameStart >= MinStart(nlaStrips) then frameStart else MinStart(nlaStrips)),
         (if frameEnd <= MaxEnd(nlaStrips) then frameEnd else MaxEnd(nlaStrips)))
      else (frameStart, frameStart)
    case None => (frameStart, UnmutedMaxEnd(tracks))
  }

  /** The truncated range of a marker's sequence, or None when it would run backwards. */
  function MarkerFrameRange(tracks: seq<Nla.NlaTrack>, markers: seq<TimelineMarker>, markerName: string): Option<(int, int)>
    requires markerName in MarkerNames(markers)
  {
    var (frameStart, frameEnd) := MarkerRealRange(tracks, markers, markerName);
    if frameStart > frameEnd then None else Some((Trunc(frameStart), Trunc(frameEnd)))
  }

  /**
   * A marker's range never runs backwards. With a next marker in frame
   * order it lies between the two markers' frames, and is the marker's
   * frame alone when no strip on an unmuted track overlaps them; the last
   * marker's range ends at the last strip end. This needs distinct marker
   * names (with two markers of one name, the name lookup and the sorted
   * copy's `index` can find different markers) and strips that do not end
   * before they start.
   */
  lemma MarkerFrameRangeBounds(tracks: seq<Nla.NlaTrack>, markers: seq<TimelineMarker>, markerName: string)
    requires markerName in MarkerNames(markers)
    requires DistinctMarkerNames(markers) && ProperStrips(tracks)
    ensures var r := MarkerFrameRange(tracks, markers, markerName);
      var frame := markers[FirstMarkerIndex(markers, markerName)].frame;
      var sorted := SortedTimelineMarkers(markers);
      var next := FirstMarkerIndex(sorted, markerName) + 1;
      && (r.Some? ==> r.value.0 <= r.value.1)
      && (next < |sorted| ==> r.Some? && frame <= r.value.0 && r.value.1 <= sorted[next].frame)
      && (next < |sorted| && Nla.GetNlaStripsInFrameRange(Some(tracks), frame as real, sorted[next].frame as real) == [] ==>
            r == Some((frame, frame)))
      && (next == |sorted| && r.Some? ==> r.value == (frame, Trunc(UnmutedMaxEnd(tracks))))
  {
    var frame := markers[FirstMarkerIndex(markers, markerName)].frame;
    SortedMarkerNames(markers, markerName);
    var sorted := SortedTimelineMarkers(markers);
    var index := FirstMarkerIndex(sorted, markerName);
    if index + 1 < |sorted| {
      assert sorted[index] == markers[FirstMarkerIndex(markers, markerName)] by {
        MarkerOnSortedFrame(markers, markerName);
      }
      assert TimelineFrame(sorted[index]) <= TimelineFrame(sorted[index + 1]);
      assert NextMarkerFrame(markers, markerName) == Some(sorted[index + 1].frame);
    } else {
      assert NextMarkerFrame(markers, markerName) == None;
    }
    RangeToNextBounds(tracks, frame, NextMarkerFrame(markers, markerName));
  }

  /**
   * The truncated range from a frame never runs backwards; up to a later
   * next frame it lies between the two frames, and is the frame alone when
   * no strip overlaps; without a next frame it ends at the last strip end.
   */
  lemma RangeToNextBounds(tracks: seq<Nla.NlaTrack>, frame: int, next: Option<int>)
    requires ProperStrips(tracks) && (next.Some? ==> frame <= next.value)
    ensures var (s, e) := RangeToNext(tracks, frame, next);
      var r := if s > e then None else Some((Trunc(s), Trunc(e)));
      && (r.Some? ==> r.value.0 <= r.value.1)
      && (next.Some? ==> r.Some? && frame <= r.value.0 && r.value.1 <= next.value)
      && (next.Some? && Nla.GetNlaStripsInFrameRange(Some(tracks), frame as real, next.value as real) == [] ==> r == Some((frame, frame)))
      && (next.None? && r.Some? ==> r.value == (frame, Trunc(UnmutedMaxEnd(tracks))))
  {
    var (s, e) := RangeToNext(tracks, frame, next);
    TruncOfInt(frame);
    if s <= e {
      TruncMonotone(s, e);
    }
    if next.Some? {
      var nlaStrips := Nla.GetNlaStripsInFrameRange(Some(tracks), frame as real, next.value as real);
      if |nlaStrips| > 0 {
        MinStartWithin(tracks, frame as real, next.value as real, nlaStrips);
      }
      TruncMonotone(frame as real, s);
      TruncMonotone(e, next.value as real);
      TruncOfInt(next.value);
    }
  }

  /** No two timeline markers share a name. */
  ghost predicate DistinctMarkerNames(markers: seq<TimelineMarker>)
  {
    forall i, j :: 0 <= i < j < |markers| ==> markers[i].name != markers[j].name
  }

  /** Every strip starts no later than it ends. */
  ghost predicate ProperStrips(tracks: seq<Nla.NlaTrack>)
  {
    forall t, x :: 0 <= t < |tracks| && x in tracks[t].strips ==> x.frameStart <= x.frameEnd
  }

  /**
   * With distinct names, the marker a name lookup finds is the one the
   * sorted copy's `index` finds.
   */
  lemma MarkerOnSortedFrame(markers: seq<TimelineMarker>, markerName: string)
    requires markerName in MarkerNames(markers) && DistinctMarkerNames(markers)
    ensures markerName in MarkerNames(SortedTimelineMarkers(markers))
    ensures SortedTimelineMarkers(markers)[FirstMarkerIndex(SortedTimelineMarkers(markers), markerName)]
      == markers[FirstMarkerIndex(markers, markerName)]
  {
    SortedMarkerNames(markers, markerName);
    var sorted := SortedTimelineMarkers(markers);
    var i := FirstMarkerIndex(markers, markerName);
    var j := FirstMarkerIndex(sorted, markerName);
    assert sorted[j] in multiset(markers);
    var k :| 0 <= k < |markers| && markers[k] == sorted[j];
    assert k == i;
  }

  /**
   * The strips found between two frames a <= b leave a range: the smallest
   * start is at most b, at most the largest end, and a is at most the
   * largest end.
   */
  lemma MinStartWithin(tracks: seq<Nla.NlaTrack>, a: real, b: real, nlaStrips: seq<Nla.Strip>)
    requires a <= b && ProperStrips(tracks)
    requires nlaStrips == Nla.GetNlaStripsInFrameRange(Some(tracks), a, b) && nlaStrips != []
    ensures MinStart(nlaStrips) <= b && MinStart(nlaStrips) <= MaxEnd(nlaStrips) && a <= MaxEnd(nlaStrips)
  {
    var lo, hi := MinStart(nlaStrips), MaxEnd(nlaStrips);
    assert exists x :: x in nlaStrips && x.frameStart == lo;
    var x :| x in nlaStrips && x.frameStart == lo;
    var y :| y in nlaStrips && y.frameEnd == hi;
    assert Nla.Matches(Nla.InFrameRange(a, b), x) && Nla.Matches(Nla.InFrameRange(a, b), y);
    var t :| 0 <= t < |tracks| && !tracks[t].mute && y in tracks[t].strips;
    assert y.frameStart <= y.frameEnd;
  }

  /**
   * The ranges of the named markers' sequences: a marker is left out when
   * its range would run backwards. The last marker's end comes from the
   * loop over the tracks; the others' from the strips between the markers.
   */
  method GetTimelineMarkerSequenceFrameRanges(tracks: seq<Nla.NlaTrack>, markers: seq<TimelineMarker>, markerNames: seq<string>)
    returns (sequenceFrameRanges: map<string, (int, int)>)
    requires forall n :: n in markerNames ==> n in MarkerNames(markers)
    ensures forall n :: n in sequenceFrameRanges <==> n in markerNames && MarkerFrameRange(tracks, markers, n).Some?
    ensures forall n :: n in sequenceFrameRanges ==> Some(sequenceFrameRanges[n]) == MarkerFrameRange(tracks, markers, n)
  {
    sequenceFrameRanges := map[];
    var sortedTimelineMarkers := SortedTimelineMarkers(markers);
    for i := 0 to |markerNames|
      invariant forall n :: n in sequenceFrameRanges <==> n in markerNames[..i] && MarkerFrameRange(tracks, markers, n).Some?
      invariant forall n :: n in sequenceFrameRanges ==> Some(sequenceFrameRanges[n]) == MarkerFrameRange(tracks, markers, n)
    {
      var markerName := markerNames[i];
      assert markerName in markerNames;
      var frameStart, frameEnd := MarkerRange(tracks, markers, sortedTimelineMarkers, markerName);
      assert markerNames[..i + 1] == markerNames[..i] + [markerName];
      if frameStart > frameEnd {
        continue;
      }
      sequenceFrameRanges := sequenceFrameRanges[markerName := (Trunc(frameStart), Trunc(frameEnd))];
    }
    assert markerNames[..|markerNames|] == markerNames;
  }

  /** The body of the loop over the marker names: one marker's range before the start > end test. */
  method MarkerRange(tracks: seq<Nla.NlaTrack>, markers: seq<TimelineMarker>, sortedTimelineMarkers: seq<TimelineMarker>, markerName: string)
    returns (frameStart: real, frameEnd: real)
    requires markerName in MarkerNames(markers) && sortedTimelineMarkers == SortedTimelineMarkers(markers)
    ensures (frameStart, frameEnd) == MarkerRealRange(tracks, markers, markerName)
  {
    var marker := markers[FirstMarkerIndex(markers, markerName)];
    SortedMarkerNames(markers, markerName);
    var nextMarkerIndex := FirstMarkerIndex(sortedTimelineMarkers, markerName) + 1;
    if nextMarkerIndex < |sortedTimelineMarkers| {
      assert NextMarkerFrame(markers, markerName) == Some(sortedTimelineMarkers[nextMarkerIndex].frame);
      frameStart, frameEnd := RangeToNextMarker(tracks, marker.frame, sortedTimelineMarkers[nextMarkerIndex].frame);
    } else {
      assert NextMarkerFrame(markers, markerName) == None;
      frameStart := marker.frame as real;
      frameEnd := LastStripEnd(tracks);
    }
  }

  /** A marker's range when a next marker follows it: the overlapping strips' extent clamped to the two markers. */
  method RangeToNextMarker(tracks: seq<Nla.NlaTrack>, frame: int, nextFrame: int) returns (frameStart: real, frameEnd: real)
    ensures (frameStart, frameEnd) == RangeToNext(tracks, frame, Some(nextFrame))
  {
    frameStart := frame as real;
    frameEnd := nextFrame as real;
    var nlaStrips := Nla.GetNlaStripsInFrameRange(Some(tracks), frame as real, frameEnd);
    if |nlaStrips| > 0 {
      var maxEnd := MaxEnd(nlaStrips);
      frameEnd := if frameEnd <= maxEnd then frameEnd else maxEnd;
      var minStart := MinStart(nlaStrips);
      frameStart := if frameStart >= minStart then frameStart else minStart;
    } else {
      frameEnd := frameStart;
    }
  }

  /** The loop over the unmuted tracks' strips that finds the last marker's end. */
  method LastStripEnd(tracks: seq<Nla.NlaTrack>) returns (frameEnd: real)
    ensures frameEnd == UnmutedMaxEnd(tracks)
  {
    frameEnd := 0.0;
    for t := 0 to |tracks|
      invariant frameEnd == UnmutedMaxEnd(tracks[..t])
    {
      assert tracks[..t + 1][..t] == tracks[..t];
      if tracks[t].mute {
        continue;
      }
      var strips := tracks[t].strips;
      var base := frameEnd;
      for k := 0 to |strips|
        invariant frameEnd == StripsMaxEnd(base, strips[..k])
      {
        assert strips[..k + 1][..k] == strips[..k];
        frameEnd := MaxReal(frameEnd, strips[k].frameEnd);
      }
      assert strips[..|strips|] == strips;
    }
    assert tracks[..|tracks|] == tracks;
  }

  // ---------------------------------------------------------------------
  // get_sequence_fps and get_sequence_compression_ratio
  // ---------------------------------------------------------------------

  /** The smallest of a non-empty list, as Python's min(). */
  function MinOf(s: seq<real>): (r: real)
    requires s != []
    ensures r in s && forall x :: x in s ==> r <= x
  {
    if |s| == 1 then s[0]
    else
      var rest := MinOf(s[1..]);
      assert forall x :: x in s ==> x == s[0] || x in s[1..];
      if s[0] <= rest then s[0] else rest
  }

  function ActionFps(action: Action): real
  {
    action.fps
  }

  function ActionCompressionRatio(action: Action): real
  {
    action.compressionRatio
  }

  /**
   * The fps of the export: the scene's, the custom value, or the smallest
   * fps among the actions; min() of no actions raises ValueError and an
   * unknown source fails the assertion.
   */
  function GetSequenceFps(fpsSource: string, sceneFps: real, fpsCustom: real, actions: seq<Action>): (r: Result<real>)
    ensures fpsSource == "SCENE" ==> r == Ok(sceneFps)
    ensures fpsSource == "CUSTOM" ==> r == Ok(fpsCustom)
    ensures fpsSource == "ACTION_METADATA" && actions == [] ==> r.Err? && r.error.ValueError?
    ensures fpsSource == "ACTION_METADATA" && actions != [] ==> (r.Ok?
      && (exists i :: 0 <= i < |actions| && actions[i].fps == r.value)
      && forall i :: 0 <= i < |actions| ==> r.value <= actions[i].fps)
    ensures fpsSource !in {"SCENE", "CUSTOM", "ACTION_METADATA"} ==> r == Err(AssertionError)
  {
    if fpsSource == "SCENE" then Ok(sceneFps)
    else if fpsSource == "CUSTOM" then Ok(fpsCustom)
    else if fpsSource == "ACTION_METADATA" then
      if actions == [] then Err(ValueError("min() arg is an empty sequence"))
      else
        var fpsValues := Map(actions, ActionFps);
        var m := MinOf(fpsValues);
        assert forall i :: 0 <= i < |actions| ==> fpsValues[i] == actions[i].fps;
        assert exists i :: 0 <= i < |fpsValues| && fpsValues[i] == m;
        assert forall i :: 0 <= i < |fpsValues| ==> m <= fpsValues[i] by {
          assert forall i :: 0 <= i < |fpsValues| ==> fpsValues[i] in fpsValues;
        }
        Ok(m)
    else Err(AssertionError)
  }

  /**
   * The compression ratio of the export: the smallest ratio among the
   * actions or the custom value; min() of no actions raises ValueError and
   * any other source fails the assertion.
   */
  function GetSequenceCompressionRatio(compressionRatioSource: string, compressionRatioCustom: real, actions: seq<Action>): (r: Result<real>)
    ensures compressionRatioSource == "CUSTOM" ==> r == Ok(compressionRatioCustom)
    ensures compressionRatioSource == "ACTION_METADATA" && actions == [] ==> r.Err? && r.error.ValueError?
    ensures compressionRatioSource == "ACTION_METADATA" && actions != [] ==> (r.Ok?
      && (exists i :: 0 <= i < |actions| && actions[i].compressionRatio == r.value)
      && forall i :: 0 <= i < |actions| ==> r.value <= actions[i].compressionRatio)
    ensures compressionRatioSource !in {"CUSTOM", "ACTION_METADATA"} ==> r == Err(AssertionError)
  {
    if compressionRatioSource == "ACTION_METADATA" then
      if actions == [] then Err(ValueError("min() arg is an empty sequence"))
      else
        var ratios := Map(actions, ActionCompressionRatio);
        var m := MinOf(ratios);
        assert forall i :: 0 <= i < |actions| ==> ratios[i] == actions[i].compressionRatio;
        assert exists i :: 0 <= i < |ratios| && ratios[i] == m;
        assert forall i :: 0 <= i < |ratios| ==> m <= ratios[i] by {
          assert forall i :: 0 <= i < |ratios| ==> ratios[i] in ratios;
        }
        Ok(m)
    else if compressionRatioSource == "CUSTOM" then Ok(compressionRatioCustom)
    else Err(AssertionError)
  }

  // ---------------------------------------------------------------------
  // get_visible_sequences, select all and deselect all
  // ---------------------------------------------------------------------

  function ShownBy(pg: SequenceFilter): SequenceListItem -> bool
  {
    (item: SequenceListItem) => Shown(pg, item)
  }

  /**
   * `get_visible_sequences`: the items whose filter flag has bit 30 set, in
   * list order.
   */
  method GetVisibleSequences(pg: SequenceFilter, sequences: seq<SequenceListItem>) returns (visibleSequences: seq<SequenceListItem>)
    ensures visibleSequences == Filter(sequences, ShownBy(pg), true)
  {
    var fltFlags := FilterSequences(pg, sequences);
    visibleSequences := [];
    for i := 0 to |fltFlags|
      invariant visibleSequences == Filter(sequences[..i], ShownBy(pg), true)
    {
      FlagBit(Shown(pg, sequences[i]));
      FilterConcat(sequences[..i], [sequences[i]], ShownBy(pg), true);
      assert sequences[..i + 1] == sequences[..i] + [sequences[i]];
      if fltFlags[i] & BITFLAG_FILTER_ITEM != 0 {
        visibleSequences := visibleSequences + [sequences[i]];
      }
    }
    assert sequences[..|sequences|] == sequences;
  }

  /** The visible items are exactly the listed items every filter lets through. */
  lemma VisibleSequencesMembers(pg: SequenceFilter, sequences: seq<SequenceListItem>)
    ensures forall x :: x in Filter(sequences, ShownBy(pg), true) <==> x in sequences && Shown(pg, x)
  {
    FilterMembers(sequences, ShownBy(pg), true);
  }

  /** The sequence list of the export's current source. */
  class SequenceList {
    var items: seq<SequenceListItem>

    constructor(items0: seq<SequenceListItem>)
      ensures items == items0
    {
      items := items0;
    }

    /** Select All is offered while some visible item is not selected. */
    predicate CanSelectAll(pg: SequenceFilter)
      reads this
    {
      exists i :: 0 <= i < |items| && Shown(pg, items[i]) && !items[i].isSelected
    }

    /** Deselect All is offered while the list has a selected item, visible or not. */
    predicate CanDeselectAll()
      reads this
    {
      |items| > 0 && exists i :: 0 <= i < |items| && items[i].isSelected
    }

    /** Select All: every visible item becomes selected; hidden ones keep their state. */
    method SelectAll(pg: SequenceFilter)
      modifies this
      ensures |items| == |old(items)|
      ensures forall i :: 0 <= i < |items| ==>
        items[i] == if Shown(pg, old(items)[i]) then old(items)[i].(isSelected := true) else old(items)[i]
      ensures !CanSelectAll(pg)
    {
      var original := items;
      var fltFlags := FilterSequences(pg, original);
      var updated := original;
      for i := 0 to |original|
        invariant |updated| == |original|
        invariant forall k :: 0 <= k < i ==>
          updated[k] == if Shown(pg, original[k]) then original[k].(isSelected := true) else original[k]
        invariant forall k :: i <= k < |original| ==> updated[k] == original[k]
      {
        FlagBit(Shown(pg, original[i]));
        if fltFlags[i] & BITFLAG_FILTER_ITEM != 0 {
          updated := updated[i := updated[i].(isSelected := true)];
        }
      }
      items := updated;
    }

    /** Deselect All: every visible item becomes unselected; hidden ones keep their state. */
    method DeselectAll(pg: SequenceFilter)
      modifies this
      ensures |items| == |old(items)|
      ensures forall i :: 0 <= i < |items| ==>
        items[i] == if Shown(pg, old(items)[i]) then old(items)[i].(isSelected := false) else old(items)[i]
      ensures forall i :: 0 <= i < |items| && Shown(pg, items[i]) ==> !items[i].isSelected
    {
      var original := items;
      var fltFlags := FilterSequences(pg, original);
      var updated := original;
      for i := 0 to |original|
        invariant |updated| == |original|
        invariant forall k :: 0 <= k < i ==>
          updated[k] == if Shown(pg, original[k]) then original[k].(isSelected := false) else original[k]
        invariant forall k :: i <= k < |original| ==> updated[k] == original[k]
      {
        FlagBit(Shown(pg, original[i]));
        if fltFlags[i] & BITFLAG_FILTER_ITEM != 0 {
          updated := updated[i := updated[i].(isSelected := false)];
        }
      }
      items := updated;
    }
  }

  // ---------------------------------------------------------------------
  // is_action_for_object
  // ---------------------------------------------------------------------

  const POSE_BONES_PREFIX: string := "pose.bones[\""

  /** The position of the first '"' in s, |s| if there is none. */
  function FirstQuote(s: string): (k: nat)
    ensures k <= |s| && (k < |s| ==> s[k] == '"') && forall i :: 0 <= i < k ==> s[i] != '"'
  {
    if s == [] || s[0] == '"' then 0 else 1 + FirstQuote(s[1..])
  }

  /**
   * The bone name a data path of the form pose.bones["<name>"] starts
   * with (the first group of the legacy pattern, matched at the start), if
   * any.
   */
  function BoneNameOfDataPath(dataPath: string): Option<string>
  {
    if |dataPath| < |POSE_BONES_PREFIX| || dataPath[..|POSE_BONES_PREFIX|] != POSE_BONES_PREFIX then None
    else
      var rest := dataPath[|POSE_BONES_PREFIX|..];
      var k := FirstQuote(rest);
      if 0 < k && k + 1 < |rest| && rest[k + 1] == ']' then Some(rest[..k]) else None
  }

  /** A found bone name is non-empty, free of '"', and the path spells it out. */
  lemma BoneNameOfDataPathSound(dataPath: string)
    requires BoneNameOfDataPath(dataPath).Some?
    ensures var name := BoneNameOfDataPath(dataPath).value;
      && name != [] && '"' !in name
      && dataPath == POSE_BONES_PREFIX + name + "\"]" + dataPath[|POSE_BONES_PREFIX| + |name| + 2..]
  {
    var rest := dataPath[|POSE_BONES_PREFIX|..];
    var k := FirstQuote(rest);
    var name := rest[..k];
    assert '"' !in name by {
      assert forall i :: 0 <= i < |name| ==> name[i] == rest[i];
    }
    assert dataPath == dataPath[..|POSE_BONES_PREFIX|] + rest;
    assert rest == name + "\"]" + rest[k + 2..];
  }

  /** Every path that spells out pose.bones["<name>"] gives that name. */
  lemma BoneNameOfDataPathComplete(name: string, suffix: string)
    requires name != [] && '"' !in name
    ensures BoneNameOfDataPath(POSE_BONES_PREFIX + name + "\"]" + suffix) == Some(name)
  {
    var dataPath := POSE_BONES_PREFIX + name + "\"]" + suffix;
    assert dataPath[..|POSE_BONES_PREFIX|] == POSE_BONES_PREFIX;
    var rest := dataPath[|POSE_BONES_PREFIX|..];
    assert rest == name + "\"]" + suffix;
    assert forall i :: 0 <= i < |name| ==> rest[i] == name[i];
    assert rest[|name|] == '"' && rest[|name| + 1] == ']';
    FirstQuoteOf(rest, |name|);
    assert rest[..|name|] == name;
  }

  lemma FirstQuoteOf(s: string, k: nat)
    requires k < |s| && s[k] == '"' && forall i :: 0 <= i < k ==> s[i] != '"'
    ensures FirstQuote(s) == k
  {
    var j := FirstQuote(s);
    assert j <= k;
    assert !(j < k);
  }

  /** An f-curve that animates a bone of the armature. */
  predicate AnimatesBone(dataPath: string, boneNames: seq<string>)
  {
    BoneNameOfDataPath(dataPath).Some? && BoneNameOfDataPath(dataPath).value in boneNames
  }

  /**
   * `is_action_for_object_legacy`: whether some f-curve's data path names
   * a bone of the armature, found by a loop that stops at the first one.
   */
  method IsActionForObjectLegacy(fcurvePaths: seq<string>, boneNames: seq<string>) returns (r: bool)
    ensures r <==> exists i :: 0 <= i < |fcurvePaths| && AnimatesBone(fcurvePaths[i], boneNames)
  {
    for i := 0 to |fcurvePaths|
      invariant forall k :: 0 <= k < i ==> !AnimatesBone(fcurvePaths[k], boneNames)
    {
      var boneName := BoneNameOfDataPath(fcurvePaths[i]);
      if boneName.None? {
        continue;
      }
      if boneName.value in boneNames {
        return true;
      }
    }
    return false;
  }

  /** A scene object as the test sees it: its type, whether it has animation data, and its bones' names. */
  datatype SceneObject = SceneObject(objectType: string, hasAnimationData: bool, boneNames: seq<string>)

  /**
   * `is_action_for_object`: false without an action with f-curves or
   * without an armature with animation data; before Blender 4.4 the legacy
   * f-curve test; from 4.4 on, whether the object is a user of one of the
   * action's slots (given, as it is Blender's to say).
   */
  method IsActionForObject(obj: Option<SceneObject>, action: Option<Action>, version: SemanticVersion, isSlotUser: bool)
    returns (r: bool)
    ensures action.None? || action.value.fcurvePaths == [] ==> !r
    ensures obj.None? || !obj.value.hasAnimationData || obj.value.objectType != "ARMATURE" ==> !r
    ensures action.Some? && obj.Some? && Lt(version, SemanticVersion(4, 4, 0)) ==>
      (r <==> (action.value.fcurvePaths != [] && obj.value.hasAnimationData && obj.value.objectType == "ARMATURE"
        && exists i :: 0 <= i < |action.value.fcurvePaths| && AnimatesBone(action.value.fcurvePaths[i], obj.value.boneNames)))
    ensures action.Some? && obj.Some? && !Lt(version, SemanticVersion(4, 4, 0)) ==>
      (r <==> action.value.fcurvePaths != [] && obj.value.hasAnimationData && obj.value.objectType == "ARMATURE" && isSlotUser)
  {
    if action.None? || |action.value.fcurvePaths| == 0 {
      return false;
    }
    if obj.None? || !obj.value.hasAnimationData || obj.value.objectType != "ARMATURE" {
      return false;
    }
    if Lt(version, SemanticVersion(4, 4, 0)) {
      r := IsActionForObjectLegacy(action.value.fcurvePaths, obj.value.boneNames);
      return;
    }
    return isSlotUser;
  }
}
