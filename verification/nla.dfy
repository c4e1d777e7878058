// NLA strip queries: `get_nla_strips_in_frame_range` of
// io_scene_psk_psa/shared/helpers.py, which skips muted tracks, and the older
// `get_nla_strips_in_timeframe` and `get_nla_strips_ending_at_frame` of
// io_scene_psk_psa/helpers.py, which do not. Frame numbers are only compared,
// so they are reals.
module Nla {
  import opened Wrappers

  datatype Strip = Strip(name: string, frameStart: real, frameEnd: real)

  datatype NlaTrack = NlaTrack(mute: bool, strips: seq<Strip>)

  /** An object that may carry animation data, which is a list of NLA tracks. */
  datatype AnimatedObject = AnimatedObject(animationData: Option<seq<NlaTrack>>)

  /** The strip tests of the three queries. */
  datatype StripQuery =
    | InFrameRange(frameMin: real, frameMax: real)
    | InTimeframe(frameMin: real, frameMax: real)
    | EndingAt(frame: real)

  predicate Matches(q: StripQuery, strip: Strip)
  {
    match q
    case InFrameRange(frameMin, frameMax) =>
      (strip.frameStart < frameMin && strip.frameEnd > frameMax)
      || (frameMin <= strip.frameStart < frameMax)
      || (frameMin < strip.frameEnd <= frameMax)
    case InTimeframe(frameMin, frameMax) => strip.frameEnd >= frameMin && strip.frameStart <= frameMax
    case EndingAt(frame) => strip.frameEnd == frame
  }

  /** The strips of a track that match, in track order. */
  function Filter(strips: seq<Strip>, q: StripQuery): (r: seq<Strip>)
    ensures |r| <= |strips|
    ensures forall x :: x in r <==> x in strips && Matches(q, x)
  {
    if strips == [] then []
    else
      var front := strips[..|strips| - 1];
      var last := strips[|strips| - 1];
      assert strips == front + [last];
      Filter(front, q) + if Matches(q, last) then [last] else []
  }

  /** Whether a query looks at a track: muted tracks only when includeMuted. */
  predicate Searched(track: NlaTrack, includeMuted: bool)
  {
    includeMuted || !track.mute
  }

  /** The matching strips of the searched tracks, track by track. */
  function Picked(tracks: seq<NlaTrack>, includeMuted: bool, q: StripQuery): (r: seq<Strip>)
    ensures forall x :: x in r <==>
      exists t :: 0 <= t < |tracks| && Searched(tracks[t], includeMuted) && x in tracks[t].strips && Matches(q, x)
  {
    if tracks == [] then []
    else
      var front := tracks[..|tracks| - 1];
      var last := tracks[|tracks| - 1];
      assert forall t :: 0 <= t < |front| ==> front[t] == tracks[t];
      Picked(front, includeMuted, q) + if Searched(last, includeMuted) then Filter(last.strips, q) else []
  }

  /**
   * `get_nla_strips_in_frame_range`: no strips without animation data;
   * otherwise every strip of an unmuted track that starts before the range
   * and ends after it, starts inside [min, max), or ends inside (min, max].
   */
  function GetNlaStripsInFrameRange(animationData: Option<seq<NlaTrack>>, frameMin: real, frameMax: real): (r: seq<Strip>)
    ensures animationData.None? ==> r == []
    ensures animationData.Some? ==> forall x :: x in r <==>
      exists t :: 0 <= t < |animationData.value| && !animationData.value[t].mute && x in animationData.value[t].strips
        && Matches(InFrameRange(frameMin, frameMax), x)
  {
    match animationData
    case None => []
    case Some(tracks) => Picked(tracks, false, InFrameRange(frameMin, frameMax))
  }

  /**
   * For a proper strip and a proper range, the frame-range test picks the
   * strips that share a stretch of positive length with the range, and a
   * strip of no length exactly when it lies in the closed range.
   */
  lemma InFrameRangeIsOverlap(strip: Strip, frameMin: real, frameMax: real)
    requires strip.frameStart <= strip.frameEnd && frameMin < frameMax
    ensures Matches(InFrameRange(frameMin, frameMax), strip) <==>
      (strip.frameStart < frameMax && frameMin < strip.frameEnd)
      || (strip.frameStart == strip.frameEnd && frameMin <= strip.frameStart <= frameMax)
  {
  }

  /** A strip that ends inside the range is picked by both range tests. */
  lemma EndingInsideIsPickedByBoth(strip: Strip, frameMin: real, frameMax: real)
    requires strip.frameStart <= strip.frameEnd && frameMin < strip.frameEnd <= frameMax
    ensures Matches(InFrameRange(frameMin, frameMax), strip) && Matches(InTimeframe(frameMin, frameMax), strip)
  {
  }

  lemma FilterStep(strips: seq<Strip>, q: StripQuery, i: nat)
    requires i < |strips|
    ensures Filter(strips[..i + 1], q) == Filter(strips[..i], q) + if Matches(q, strips[i]) then [strips[i]] else []
  {
    assert strips[..i + 1][..i] == strips[..i];
  }

  lemma PickedStep(tracks: seq<NlaTrack>, q: StripQuery, t: nat)
    requires t < |tracks|
    ensures Picked(tracks[..t + 1], true, q) == Picked(tracks[..t], true, q) + Filter(tracks[t].strips, q)
  {
    assert tracks[..t + 1][..t] == tracks[..t];
  }

  /** The inner loop of the older queries: the strips of one track that match q, in order. */
  method CollectTrackStrips(strips: seq<Strip>, q: StripQuery) returns (picked: seq<Strip>)
    ensures picked == Filter(strips, q)
  {
    picked := [];
    for i := 0 to |strips|
      invariant picked == Filter(strips[..i], q)
    {
      FilterStep(strips, q, i);
      if Matches(q, strips[i]) {
        picked := picked + [strips[i]];
      }
    }
    assert strips[..|strips|] == strips;
  }

  /**
   * The nested loops of the older queries: every strip of every track,
   * muted or not, that matches q, in track order and strip order.
   */
  method CollectStrips(tracks: seq<NlaTrack>, q: StripQuery) returns (strips: seq<Strip>)
    ensures strips == Picked(tracks, true, q)
  {
    strips := [];
    for t := 0 to |tracks|
      invariant strips == Picked(tracks[..t], true, q)
    {
      var picked := CollectTrackStrips(tracks[t].strips, q);
      PickedStep(tracks, q, t);
      strips := strips + picked;
    }
    assert tracks[..|tracks|] == tracks;
  }

  /**
   * `get_nla_strips_in_timeframe`: no strips without an object or without
   * animation data; otherwise every strip, muted tracks included, that ends
   * at or after frame_min and starts at or before frame_max.
   */
  method GetNlaStripsInTimeframe(obj: Option<AnimatedObject>, frameMin: real, frameMax: real) returns (strips: seq<Strip>)
    ensures obj.None? || obj.value.animationData.None? ==> strips == []
    ensures obj.Some? && obj.value.animationData.Some? ==>
      var tracks := obj.value.animationData.value;
      forall x :: x in strips <==>
        exists t :: 0 <= t < |tracks| && x in tracks[t].strips && x.frameEnd >= frameMin && x.frameStart <= frameMax
  {
    if obj.None? || obj.value.animationData.None? {
      return [];
    }
    strips := CollectStrips(obj.value.animationData.value, InTimeframe(frameMin, frameMax));
  }

  /**
   * `get_nla_strips_ending_at_frame`: no strips without an object or
   * without animation data; otherwise every strip, muted tracks included,
   * whose end frame equals frame.
   */
  method GetNlaStripsEndingAtFrame(obj: Option<AnimatedObject>, frame: real) returns (strips: seq<Strip>)
    ensures obj.None? || obj.value.animationData.None? ==> strips == []
    ensures obj.Some? && obj.value.animationData.Some? ==>
      var tracks := obj.value.animationData.value;
      forall x :: x in strips <==> exists t :: 0 <= t < |tracks| && x in tracks[t].strips && x.frameEnd == frame
  {
    if obj.None? || obj.value.animationData.None? {
      return [];
    }
    strips := CollectStrips(obj.value.animationData.value, EndingAt(frame));
  }
}
