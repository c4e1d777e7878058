// The animation-import configuration, io_scene_psk_psa/psa/config.py: the
// rewrite that turns UEViewer's bare INI keys into `key=` lines, the bone
// flags of a RemoveTracks value, and `read_psa_config` over the (key, value)
// entries of the RemoveTracks section.
module PsaConfig {
  import opened Wrappers
  import opened Text

  const REMOVE_TRACK_LOCATION: bv32 := 1
  const REMOVE_TRACK_ROTATION: bv32 := 2

  // ---------------------------------------------------------------------
  // The line rewrite: re.sub(r'^\s*([^=]+)\s*$', r'\1=', line)
  // ---------------------------------------------------------------------

  predicate AllSpace(s: string)
  {
    forall i :: 0 <= i < |s| ==> IsSpace(s[i])
  }

  /**
   * Whether the pattern matches line with its group starting at k: the
   * characters before k are whitespace and the group, which runs to the end
   * of the line (it is greedy and may hold whitespace), holds no '='.
   */
  ghost predicate GroupAt(line: string, k: nat)
  {
    k < |line| && AllSpace(line[..k]) && '=' !in line[k..]
  }

  /** The number of whitespace characters the line starts with. */
  function LeadingSpaces(line: string): (n: nat)
    ensures n <= |line| && AllSpace(line[..n])
    ensures n < |line| ==> !IsSpace(line[n])
  {
    if line == [] || !IsSpace(line[0]) then 0
    else
      var n := 1 + LeadingSpaces(line[1..]);
      assert line[..n] == [line[0]] + line[1..][..n - 1];
      n
  }

  /** The rewrite of one line of the configuration file. */
  function RewriteLine(line: string): string
  {
    if line == [] || '=' in line then line
    else
      var k := if LeadingSpaces(line) < |line| then LeadingSpaces(line) else |line| - 1;
      line[k..] + "="
  }

  /** `[re.sub(...) for line in lines]`. */
  function RewriteLines(lines: seq<string>): (r: seq<string>)
    ensures |r| == |lines| && forall i :: 0 <= i < |lines| ==> r[i] == RewriteLine(lines[i])
  {
    seq(|lines|, i requires 0 <= i < |lines| => RewriteLine(lines[i]))
  }

  lemma GroupAtIff(line: string, k: nat)
    requires '=' !in line
    ensures GroupAt(line, k) <==> k < |line| && k <= LeadingSpaces(line)
  {
    var n := LeadingSpaces(line);
    if k < |line| && k <= n {
      assert line[..k] == line[..n][..k];
    }
    if k < |line| && k > n {
      assert line[..k][n] == line[n];
    }
  }

  /**
   * The rewrite is Python's substitution: a line the pattern does not match
   * is kept; otherwise the group of the match Python's backtracking picks
   * (the longest whitespace prefix that still leaves a group) gets '='.
   */
  lemma RewriteLineIsSubstitution(line: string)
    ensures (forall k: nat :: !GroupAt(line, k)) ==> RewriteLine(line) == line
    ensures forall k: nat :: GroupAt(line, k) && (forall k': nat :: k < k' ==> !GroupAt(line, k')) ==>
      RewriteLine(line) == line[k..] + "="
  {
    if '=' in line {
      forall k: nat ensures !GroupAt(line, k) {
        var q :| 0 <= q < |line| && line[q] == '=';
        if k <= q < |line| {
          assert line[k..][q - k] == '=';
        } else if q < k <= |line| {
          assert line[..k][q] == '=' && !IsSpace('=');
        }
      }
    } else if line != [] {
      var m := if LeadingSpaces(line) < |line| then LeadingSpaces(line) else |line| - 1;
      GroupAtIff(line, m);
      assert GroupAt(line, m);
      forall k: nat | GroupAt(line, k) && (forall k': nat :: k < k' ==> !GroupAt(line, k'))
        ensures RewriteLine(line) == line[k..] + "="
      {
        GroupAtIff(line, k);
        assert k == m;
      }
    }
  }

  /**
   * What the rewrite does, case by case: a line with '=' or an empty line is
   * kept; a line with a non-whitespace character loses its leading
   * whitespace and gets '='; a line of only whitespace is cut to its last
   * character and gets '='. A rewritten line is rewritten no further, and
   * every non-empty line comes out with an '='.
   */
  lemma RewriteLineCases(line: string)
    ensures '=' in line || line == [] ==> RewriteLine(line) == line
    ensures '=' !in line && !AllSpace(line) ==> RewriteLine(line) == line[LeadingSpaces(line)..] + "="
    ensures '=' !in line && line != [] && AllSpace(line) ==> RewriteLine(line) == [line[|line| - 1]] + "="
    ensures line != [] ==> '=' in RewriteLine(line)
    ensures RewriteLine(RewriteLine(line)) == RewriteLine(line)
  {
    var r := RewriteLine(line);
    if line != [] && '=' !in line {
      assert r[|r| - 1] == '=';
      assert line[..|line|] == line;
    }
  }

  // ---------------------------------------------------------------------
  // Bone flags
  // ---------------------------------------------------------------------

  /** `_get_bone_flags_from_value`. */
  function GetBoneFlagsFromValue(value: string): bv32
  {
    if value == "all" then REMOVE_TRACK_LOCATION | REMOVE_TRACK_ROTATION
    else if value == "trans" then REMOVE_TRACK_LOCATION
    else if value == "rot" then REMOVE_TRACK_ROTATION
    else 0
  }

  /**
   * 'all' and 'trans' remove the location track, 'all' and 'rot' the
   * rotation track, and no value sets any other bit.
   */
  lemma BoneFlagsMeaning(value: string)
    ensures GetBoneFlagsFromValue(value) & REMOVE_TRACK_LOCATION != 0 <==> value == "all" || value == "trans"
    ensures GetBoneFlagsFromValue(value) & REMOVE_TRACK_ROTATION != 0 <==> value == "all" || value == "rot"
    ensures GetBoneFlagsFromValue(value) & !(REMOVE_TRACK_LOCATION | REMOVE_TRACK_ROTATION) == 0
  {
  }

  // ---------------------------------------------------------------------
  // RemoveTracks keys: re.match(r'^(.+)\.(\d+)$', key)
  // ---------------------------------------------------------------------

  predicate AllDigits(s: string)
  {
    forall i :: 0 <= i < |s| ==> IsDigit(s[i])
  }

  /**
   * Whether the key pattern matches key with these groups: a name of at
   * least one character other than a newline, a '.', and one or more digits.
   */
  ghost predicate KeyMatch(key: string, name: string, digits: string)
  {
    key == name + "." + digits && name != [] && '\n' !in name && digits != [] && AllDigits(digits)
  }

  /** The position of the last '.' of key. */
  function LastDot(key: string): (r: Option<nat>)
    ensures r.Some? ==> r.value < |key| && key[r.value] == '.' && forall k :: r.value < k < |key| ==> key[k] != '.'
    ensures r.None? ==> forall k :: 0 <= k < |key| ==> key[k] != '.'
  {
    if key == [] then None
    else if key[|key| - 1] == '.' then Some(|key| - 1)
    else
      var front := key[..|key| - 1];
      assert forall k :: 0 <= k < |front| ==> front[k] == key[k];
      LastDot(front)
  }

  /** The groups of the key pattern, found at the last '.' of the key. */
  function ParseRemoveTracksKey(key: string): Option<(string, string)>
  {
    match LastDot(key)
    case None => None
    case Some(p) =>
      if p >= 1 && '\n' !in key[..p] && p + 1 < |key| && AllDigits(key[p + 1..]) then Some((key[..p], key[p + 1..]))
      else None
  }

  /** A match's '.' is the key's last '.', since digits follow it. */
  lemma KeyMatchDot(key: string, name: string, digits: string)
    requires KeyMatch(key, name, digits)
    ensures LastDot(key) == Some(|name|)
  {
    assert key[|name|] == '.';
    forall k | |name| < k < |key| ensures key[k] != '.' {
      assert key[k] == digits[k - |name| - 1];
    }
  }

  /**
   * The parse gives exactly the groups of the pattern's match: a result is
   * a match, and any match is the result (so the match is unique).
   */
  lemma ParseRemoveTracksKeyIsMatch(key: string)
    ensures ParseRemoveTracksKey(key).Some? ==>
      KeyMatch(key, ParseRemoveTracksKey(key).value.0, ParseRemoveTracksKey(key).value.1)
    ensures forall name, digits :: KeyMatch(key, name, digits) ==> ParseRemoveTracksKey(key) == Some((name, digits))
  {
    var r := ParseRemoveTracksKey(key);
    if r.Some? {
      var p := LastDot(key).value;
      assert key == key[..p] + "." + key[p + 1..];
    }
    forall name, digits | KeyMatch(key, name, digits) ensures ParseRemoveTracksKey(key) == Some((name, digits)) {
      KeyMatchDot(key, name, digits);
      assert key[..|name|] == name && key[|name| + 1..] == digits;
    }
  }

  /** A key written as `<name>.<bone index>` reads back as that name and index. */
  lemma RemoveTracksKeyRoundTrip(name: string, boneIndex: nat)
    requires name != [] && '\n' !in name
    ensures ParseRemoveTracksKey(name + "." + DecimalString(boneIndex)) == Some((name, DecimalString(boneIndex)))
    ensures DigitsValue(DecimalString(boneIndex)) == boneIndex
  {
    ParseRemoveTracksKeyIsMatch(name + "." + DecimalString(boneIndex));
    assert KeyMatch(name + "." + DecimalString(boneIndex), name, DecimalString(boneIndex));
    DigitsValueOfDecimal(boneIndex);
  }

  // ---------------------------------------------------------------------
  // Sequence names and read_psa_config
  // ---------------------------------------------------------------------

  /**
   * `lowercase_sequence_names.index(sequence_name.lower())`: the first PSA
   * sequence whose lower-case name is the key's, None for a ValueError.
   */
  function FirstLowerMatch(psaSequenceNames: seq<string>, name: string): (r: Option<nat>)
    ensures r.Some? ==> (r.value < |psaSequenceNames| && Lower(psaSequenceNames[r.value]) == Lower(name)
      && forall k :: 0 <= k < r.value ==> Lower(psaSequenceNames[k]) != Lower(name))
    ensures r.None? ==> forall k :: 0 <= k < |psaSequenceNames| ==> Lower(psaSequenceNames[k]) != Lower(name)
  {
    if psaSequenceNames == [] then None
    else if Lower(psaSequenceNames[0]) == Lower(name) then Some(0)
    else
      match FirstLowerMatch(psaSequenceNames[1..], name)
      case None => None
      case Some(i) => Some(i + 1)
  }

  /** The (sequence, bone index) a RemoveTracks key sets, None for a skipped key. */
  function EntryTarget(psaSequenceNames: seq<string>, key: string): Option<(string, nat)>
  {
    match ParseRemoveTracksKey(key)
    case None => None
    case Some((name, digits)) =>
      match FirstLowerMatch(psaSequenceNames, name)
      case None => None
      case Some(i) => Some((psaSequenceNames[i], DigitsValue(digits)))
  }

  /**
   * A key `<name>.<digits>` sets, for the first PSA sequence whose name
   * equals name up to case, the bone whose index the digits spell; any other
   * key sets nothing.
   */
  lemma EntryTargetMeaning(psaSequenceNames: seq<string>, key: string)
    ensures forall name, digits, i ::
      (KeyMatch(key, name, digits) && 0 <= i < |psaSequenceNames| && Lower(psaSequenceNames[i]) == Lower(name)
       && (forall k :: 0 <= k < i ==> Lower(psaSequenceNames[k]) != Lower(name)))
      ==> EntryTarget(psaSequenceNames, key) == Some((psaSequenceNames[i], DigitsValue(digits)))
    ensures EntryTarget(psaSequenceNames, key).Some? ==> EntryTarget(psaSequenceNames, key).value.0 in psaSequenceNames
    ensures EntryTarget(psaSequenceNames, key).Some? ==> ParseRemoveTracksKey(key).Some?
  {
    ParseRemoveTracksKeyIsMatch(key);
  }

  type SequenceBoneFlags = map<string, map<nat, bv32>>

  /** One pass of the loop of `read_psa_config`. */
  function ApplyEntry(flags: SequenceBoneFlags, psaSequenceNames: seq<string>, entry: (string, string)): SequenceBoneFlags
  {
    match EntryTarget(psaSequenceNames, entry.0)
    case None => flags
    case Some((sequenceName, boneIndex)) =>
      var boneFlags := if sequenceName in flags then flags[sequenceName] else map[];
      flags[sequenceName := boneFlags[boneIndex := GetBoneFlagsFromValue(entry.1)]]
  }

  /** The flags the RemoveTracks entries produce, entry by entry. */
  function RemoveTracksFlags(psaSequenceNames: seq<string>, entries: seq<(string, string)>): SequenceBoneFlags
  {
    if entries == [] then map[]
    else ApplyEntry(RemoveTracksFlags(psaSequenceNames, entries[..|entries| - 1]), psaSequenceNames, entries[|entries| - 1])
  }

  lemma RemoveTracksFlagsStep(psaSequenceNames: seq<string>, entries: seq<(string, string)>, i: nat)
    requires i < |entries|
    ensures RemoveTracksFlags(psaSequenceNames, entries[..i + 1])
      == ApplyEntry(RemoveTracksFlags(psaSequenceNames, entries[..i]), psaSequenceNames, entries[i])
  {
    assert entries[..i + 1][..i] == entries[..i];
  }

  /** An entry for another (sequence, bone) leaves a bone's flags as they were. */
  lemma ApplyEntryFrame(flags: SequenceBoneFlags, psaSequenceNames: seq<string>, entry: (string, string), s: string, b: nat)
    requires s in flags && b in flags[s]
    requires EntryTarget(psaSequenceNames, entry.0) != Some((s, b))
    ensures var after := ApplyEntry(flags, psaSequenceNames, entry);
      s in after && b in after[s] && after[s][b] == flags[s][b]
  {
  }

  /**
   * The flags of a (sequence, bone) are those of the last entry that sets
   * it: later entries overwrite earlier ones.
   */
  lemma {:induction false} LastEntryWins(psaSequenceNames: seq<string>, entries: seq<(string, string)>, i: nat, s: string, b: nat)
    requires i < |entries| && EntryTarget(psaSequenceNames, entries[i].0) == Some((s, b))
    requires forall j :: i < j < |entries| ==> EntryTarget(psaSequenceNames, entries[j].0) != Some((s, b))
    ensures var flags := RemoveTracksFlags(psaSequenceNames, entries);
      s in flags && b in flags[s] && flags[s][b] == GetBoneFlagsFromValue(entries[i].1)
  {
    var front := entries[..|entries| - 1];
    if i < |entries| - 1 {
      assert forall j :: i < j < |front| ==> front[j] == entries[j];
      LastEntryWins(psaSequenceNames, front, i, s, b);
      ApplyEntryFrame(RemoveTracksFlags(psaSequenceNames, front), psaSequenceNames, entries[|entries| - 1], s, b);
    }
  }

  /**
   * A sequence has flags exactly when some entry sets one of its bones, and
   * a bone of it exactly when some entry sets that bone; so every sequence
   * in the configuration is named as in the PSA file.
   */
  lemma {:induction false} RemoveTracksFlagsDomain(psaSequenceNames: seq<string>, entries: seq<(string, string)>, s: string, b: nat)
    ensures var flags := RemoveTracksFlags(psaSequenceNames, entries);
      && (s in flags <==> exists i, b' :: 0 <= i < |entries| && EntryTarget(psaSequenceNames, entries[i].0) == Some((s, b')))
      && (s in flags && b in flags[s] <==> exists i :: 0 <= i < |entries| && EntryTarget(psaSequenceNames, entries[i].0) == Some((s, b)))
  {
    if entries != [] {
      var front := entries[..|entries| - 1];
      var last := entries[|entries| - 1];
      RemoveTracksFlagsDomain(psaSequenceNames, front, s, b);
      assert forall i :: 0 <= i < |front| ==> front[i] == entries[i];
      if EntryTarget(psaSequenceNames, last.0).Some? && EntryTarget(psaSequenceNames, last.0).value.0 == s {
        assert EntryTarget(psaSequenceNames, entries[|entries| - 1].0) == Some((s, EntryTarget(psaSequenceNames, last.0).value.1));
      }
    }
  }

  /** The configuration `read_psa_config` fills in. */
  class PsaConfig {
    var sequenceBoneFlags: SequenceBoneFlags

    constructor()
      ensures sequenceBoneFlags == map[]
    {
      sequenceBoneFlags := map[];
    }

    /**
     * One RemoveTracks entry: when its key names a PSA sequence and a bone
     * index, that sequence's flags are created if needed and the bone's
     * flags set from the value; any other entry changes nothing.
     */
    method ApplyRemoveTracksEntry(psaSequenceNames: seq<string>, entry: (string, string))
      modifies this
      ensures sequenceBoneFlags == ApplyEntry(old(sequenceBoneFlags), psaSequenceNames, entry)
    {
      var (key, value) := entry;
      var groups := ParseRemoveTracksKey(key);
      if groups.Some? {
        var (name, digits) := groups.value;
        var found := FirstLowerMatch(psaSequenceNames, name);
        if found.Some? {
          var sequenceName := psaSequenceNames[found.value];
          if sequenceName !in sequenceBoneFlags {
            sequenceBoneFlags := sequenceBoneFlags[sequenceName := map[]];
          }
          var boneIndex := DigitsValue(digits);
          var boneFlags := sequenceBoneFlags[sequenceName];
          sequenceBoneFlags := sequenceBoneFlags[sequenceName := boneFlags[boneIndex := GetBoneFlagsFromValue(value)]];
        }
      }
    }
  }

  /**
   * `read_psa_config`, given the entries of the RemoveTracks section (None
   * when the file has no such section): every entry whose key names a PSA
   * sequence and a bone index sets that bone's flags from its value.
   */
  method ReadPsaConfig(psaSequenceNames: seq<string>, removeTracks: Option<seq<(string, string)>>) returns (psaConfig: PsaConfig)
    ensures fresh(psaConfig)
    ensures removeTracks.None? ==> psaConfig.sequenceBoneFlags == map[]
    ensures removeTracks.Some? ==> psaConfig.sequenceBoneFlags == RemoveTracksFlags(psaSequenceNames, removeTracks.value)
  {
    psaConfig := new PsaConfig();
    if removeTracks.Some? {
      var entries := removeTracks.value;
      for i := 0 to |entries|
        invariant psaConfig.sequenceBoneFlags == RemoveTracksFlags(psaSequenceNames, entries[..i])
      {
        RemoveTracksFlagsStep(psaSequenceNames, entries, i);
        psaConfig.ApplyRemoveTracksEntry(psaSequenceNames, entries[i]);
      }
      assert entries[..|entries|] == entries;
    }
  }
}
