# io_scene_psk_psa, modelled in Dafny

This project models the data-handling core of the Blender add-on for Unreal's
PSK (skeletal mesh) and PSA (skeletal animation) formats. The host calls into
Blender are left out. The model covers:

- **The chunk container.** Every PSK and PSA file is a run of chunks. Each chunk
  is a 32-byte `Section` header (a 20-byte name, type flags, record size and
  record count) followed by fixed-layout records.
  - `Bytes` and `Chunks` model the byte stream and the headers.
  - `SharedData`, `PskData` and `PsaData` model the record layouts.
  - `PskWriter`, `PskReader`, `PsaWriter` and `PsaReader` model the writers and
    readers. The writers emit a fixed chunk order and check count limits. The
    readers dispatch on chunk names. The PSA reader also computes key offsets
    and repairs CUE4Parse's broken `frame_start_index` values.
  - `PskRoundTrip` and `PsaRoundTrip` prove that what the writers write, the
    readers read back.
- **Weight normalisation** (`PskData`). The in-place sort of the weights by
  point, and the division of each point's weights by their sum.
- **The material flag codec** (`PolyFlags`). A triangle type and a set of bit
  flags are packed into `poly_flags` and unpacked again.
- **The skeleton.**
  - `BoneSelection` covers which bones are exported.
  - `PsxBones` and `PsxBoneList` cover `create_psx_bones`: parent indices,
    child counts, the dummy or synthetic root, and several armatures in one
    file.
  - `Axes` and `Transform` cover the integer axis matrix and the axis settings.
  - `Nla` covers the NLA strip queries.
  - `LegacyHelpers` covers the older bone-group helpers.
- **The mesh builder** (`PskBuilder`, with the traversal in `Dfs`).
  - Which objects are exported.
  - The material table, and the map from material slots to material indices.
  - Wedge deduplication and the loop-to-wedge map.
  - Reversed triangle corners, and the flip for negative scale.
  - Vertex-group-to-bone resolution, with fallback to the nearest exported
    ancestor and root-bone weights for vertices no group weighs.
  - The build as a whole, ending in the weight normalisation.
- **The importers.**
  - `PskImporter`: bone parents, face corners, invalid faces, UV and colour
    corner order, vertex groups and shape-key consumption.
  - `PsaImporter`: the one-to-one map from PSA bones to armature bones,
    per-bone track flags, fps choice and the resampling schedule.
  - `PsaConfig`: the `RemoveTracks` configuration.
- **Sequence naming and filtering** for the animation export and import
  panels: `PsaExportOperators`, `PsaExportProperties` and
  `PsaImportProperties`.
- **Small utilities.**
  - `MaterialOrder`: material ordering.
  - `SemVer`: semantic versions.
  - `Bdk`: the BDK reference parser.
  - `Cp1252`: Windows-1252 names.
  - `Glob`: shell-style name filters.
  - `StableSort`, `OrderedDict`, `Seqs` and `Text`: helpers.

How the model represents the source:

- Floats are opaque 4-byte values that are only copied. The one exception is
  the weights normalisation works on, which are reals.
- Integers of the ctypes records are range-limited subset types. Truncating
  stores are written out as modular arithmetic.
- Imperative code is modelled as methods with loops, on classes whose fields
  the source mutates. Each method is specified by a function, and the
  function's meaning is proved in lemmas.

## Model

| member | source | states |
|---|---|---|
| Axes.VectorFromAxisIdentifier | io_scene_psk_psa/shared/helpers.py:404-419 | each of X, Y, Z, -X, -Y, -Z gives a vector of length 1; every other identifier fails the assertion |
| Axes.AxisVectors | io_scene_psk_psa/shared/helpers.py:404-419 | every vector returned is a signed unit axis vector |
| Axes.CoordinateSystemTransform | io_scene_psk_psa/shared/helpers.py:422-431 | a 4x4 matrix with last row (0, 0, 0, 1) exactly when both identifiers are valid, otherwise the same assertion failure |
| Axes.DefaultIsIdentity | io_scene_psk_psa/shared/helpers.py:422 | the default axes, forward X and up Z, give the identity matrix |
| Axes.CrossOfPerpendicularAxes | io_scene_psk_psa/shared/helpers.py:425 | for perpendicular axis vectors, left = up x forward is a unit vector perpendicular to both and forward, left, up have triple product +1 |
| Axes.PerpendicularAxesGiveRotation | io_scene_psk_psa/shared/helpers.py:422-431 | perpendicular forward and up axes give an orthonormal 3x3 block with determinant +1, a rotation |
| Axes.ParallelAxesAreSingular | io_scene_psk_psa/shared/helpers.py:422-431 | forward and up on the same line make the left row zero and the matrix singular |
| Transform.FirstOtherAxis | io_scene_psk_psa/shared/types.py:88 | the first axis identifier in the declared order that differs from the given one, which is never the given one |
| Transform.TransformSettings.constructor | io_scene_psk_psa/shared/types.py:97-131 | the declared defaults: forward X, up Z, scale 1.0, export space WORLD |
| Transform.TransformSettings.ForwardAxisUpdate | io_scene_psk_psa/shared/types.py:85-88 | afterwards the axes differ; the forward axis is kept and the up axis moves only when it equalled the forward axis |
| Transform.TransformSettings.UpAxisUpdate | io_scene_psk_psa/shared/types.py:91-94 | afterwards the axes differ; the up axis is kept and the forward axis moves only when it equalled the up axis |
| Transform.OppositeAxesAllowed | io_scene_psk_psa/shared/types.py:85-94 | the callbacks compare identifiers only: forward -X with up -X ends with up X, the same line in the opposite direction |
| SemVer.Components | io_scene_psk_psa/shared/semver.py:7-10 | iteration yields major, minor, patch in that order |
| SemVer.FromOwnTuple | io_scene_psk_psa/shared/semver.py:4-10 | a version rebuilt from its own components is equal to it |
| SemVer.CompareSeq | io_scene_psk_psa/shared/semver.py:22-27 | the zip loop returns only -1, 0 or 1 |
| SemVer.Compare | io_scene_psk_psa/shared/semver.py:13-27 | compare returns only -1, 0 or 1 |
| SemVer.CompareIsLexicographic | io_scene_psk_psa/shared/semver.py:13-27 | compare is -1 exactly when lhs is lexicographically smaller, 1 exactly when larger, 0 exactly when equal |
| SemVer.CompareAntisymmetric | io_scene_psk_psa/shared/semver.py:13-27 | swapping the arguments negates the result |
| SemVer.EqualityIsComponentwise | io_scene_psk_psa/shared/semver.py:35-39 | == holds exactly when all three components agree, != is its negation, and equal versions hash alike (lines 53-54) |
| SemVer.OrderOperators | io_scene_psk_psa/shared/semver.py:41-51 | <, <=, >, >= agree with lexicographic order and exactly one of <, ==, > holds |
| Text.DecimalString | io_scene_psk_psa/psa/config.py:58 | str(n) of a natural number is a non-empty string of digits without a leading zero |
| Text.DigitsValueOfDecimal | io_scene_psk_psa/psa/config.py:74 | reading back the decimal digits of n gives n |
| Text.Lower | io_scene_psk_psa/psa/config.py:65-66 | the ASCII lowering maps each character by itself and keeps the length (Python's Unicode `lower()` need not: see Left out) |
| Glob.StarMatchesAll | io_scene_psk_psa/psa/import_/properties.py:153 | a lone * matches every name |
| Glob.LiteralThenStar | io_scene_psk_psa/psa/import_/properties.py:153 | a wildcard-free text followed by * matches exactly the names that start with the text |
| Glob.StarThen | io_scene_psk_psa/psa/import_/properties.py:153 | a leading * lets the rest match any suffix of the name |
| Glob.ContainsMatch | io_scene_psk_psa/psa/import_/properties.py:153 | in the POSIX, bracket-free glob model, '*text*' for a text without '*' or '?' matches exactly when text occurs in name |
| Bdk.LeadingRun | io_scene_psk_psa/bdk.py:21-22 | the longest prefix whose characters all satisfy the class: every character before it does and the next one does not |
| Bdk.LeadingRunIs | io_scene_psk_psa/bdk.py:21-22 | any run that stops at the first failing character is the leading run |
| Bdk.MatchReferenceIff | io_scene_psk_psa/bdk.py:21-23 | re.match finds a match exactly when the string starts with word characters, a quote, path characters and a quote |
| Bdk.MatchIsReference | io_scene_psk_psa/bdk.py:21-27 | a match splits the string into the type name and the quoted path |
| Bdk.ReferenceIsMatch | io_scene_psk_psa/bdk.py:21-27 | every such split is the match found, with groups 1 and 2 |
| Bdk.Tokens | io_scene_psk_psa/bdk.py:28-29 | re.findall gives non-empty runs of token characters only |
| Bdk.FromString | io_scene_psk_psa/bdk.py:18-32 | as written: a parsed reference never has a group name; a path with no token fails |
| Bdk.DotsOnlyPathFails | io_scene_psk_psa/bdk.py:29-30 | the input T'.' matches the pattern but has no token, so values[0] raises IndexError |
| Bdk.FromStringChecked | io_scene_psk_psa/bdk.py:18-32 | from_string with an empty token list treated as a bad reference: it agrees with FromString wherever that succeeds and gives None where it fails |
| Bdk.ParsedFields | io_scene_psk_psa/bdk.py:26-32 | the type name is the leading word run, the package the first path token, the object the last (the same token when there is one), no group |
| Bdk.ReprDoesNotParse | io_scene_psk_psa/bdk.py:34-39 | as written, a rendered reference lacks the closing quote and parses to None |
| Bdk.ReprQuoted | io_scene_psk_psa/bdk.py:34-39 | the rendering with the closing quote added |
| Bdk.TokensOfDotted | io_scene_psk_psa/bdk.py:28-29 | the tokens of package.object are the two names |
| Bdk.QuotedRoundTrip | io_scene_psk_psa/bdk.py:18-39 | with the closing quote, a group-less reference of word-character names parses back to itself |
| Cp1252.HighCodePoint | io_scene_psk_psa/shared/helpers.py:165-170 | the windows-1252 table for 0x80-0x9F: a code point from 0x100 up, or none for the five undefined bytes |
| Cp1252.HighByte | io_scene_psk_psa/shared/helpers.py:165-170 | the inverse table: a byte from 0x80 to 0x9F, or none |
| Cp1252.HighTablesInverse | io_scene_psk_psa/shared/helpers.py:165-170 | the two tables are inverse to each other |
| Cp1252.EncodeChar | io_scene_psk_psa/shared/helpers.py:167 | code points below 0x80 and from 0xA0 to 0xFF are their own byte; the C1 range has none |
| Cp1252.DecodeEncodeChar | io_scene_psk_psa/shared/helpers.py:167 | decoding an encoded character gives it back |
| Cp1252.EncodeDecodeByte | io_scene_psk_psa/shared/helpers.py:167 | encoding a decoded byte gives it back |
| Cp1252.UndefinedBytes | io_scene_psk_psa/shared/helpers.py:167 | exactly 0x81, 0x8D, 0x8F, 0x90 and 0x9D decode to nothing |
| Cp1252.EncodableIff | io_scene_psk_psa/shared/helpers.py:167 | a character encodes exactly when some byte decodes to it |
| Cp1252.ConvertStringToCp1252Bytes | io_scene_psk_psa/shared/helpers.py:165-170 | one byte per character when every character encodes, otherwise RuntimeError |
| Cp1252.DecodeBytes | io_scene_psk_psa/psa/importer.py:160 | decode('windows-1252'): one character per byte, each the byte's decoding |
| Cp1252.DecodeConverted | io_scene_psk_psa/shared/helpers.py:165-170 | the converted bytes of a string decode back to the string |
| Cp1252.AsciiEncodes | io_scene_psk_psa/shared/helpers.py:165-170 | ASCII names always convert, byte for byte |
| PsaConfig.RewriteLines | io_scene_psk_psa/psa/config.py:29 | the comprehension rewrites every line by itself and keeps the number of lines |
| PsaConfig.RewriteLineIsSubstitution | io_scene_psk_psa/psa/config.py:29 | the rewrite is re.sub's: an unmatched line is kept, a matched one becomes the group Python's backtracking picks followed by '=' |
| PsaConfig.RewriteLineCases | io_scene_psk_psa/psa/config.py:29 | a line with '=' or an empty line is kept; a line with a non-blank character loses its leading whitespace and gets '='; a blank line keeps its last character and gets '='; the rewrite is idempotent |
| PsaConfig.BoneFlagsMeaning | io_scene_psk_psa/psa/config.py:39-48 | 'all' and 'trans' set the location bit, 'all' and 'rot' the rotation bit, and no value sets any other bit |
| PsaConfig.LastDot | io_scene_psk_psa/psa/config.py:58 | the position of the last '.' of the key, or none when there is none |
| PsaConfig.KeyMatchDot | io_scene_psk_psa/psa/config.py:58 | the '.' of a match of ^(.+)\.(\d+)$ is the key's last '.' |
| PsaConfig.ParseRemoveTracksKeyIsMatch | io_scene_psk_psa/psa/config.py:58-61 | the parse gives exactly the groups of the pattern's unique match, and nothing when there is no match |
| PsaConfig.RemoveTracksKeyRoundTrip | io_scene_psk_psa/psa/config.py:58-74 | a key written as name.index parses back to that name and bone index |
| PsaConfig.FirstLowerMatch | io_scene_psk_psa/psa/config.py:64-69 | the first PSA sequence whose lower-case name is the key name's, or none for the ValueError |
| PsaConfig.EntryTargetMeaning | io_scene_psk_psa/psa/config.py:57-75 | a key name.digits targets the first PSA sequence equal to name up to case, under the PSA's spelling, and the bone the digits spell; other keys target nothing |
| PsaConfig.ApplyEntryFrame | io_scene_psk_psa/psa/config.py:71-75 | an entry for another (sequence, bone) leaves a bone's flags as they were |
| PsaConfig.LastEntryWins | io_scene_psk_psa/psa/config.py:71-75 | a (sequence, bone) gets the flags of the last entry that targets it |
| PsaConfig.RemoveTracksFlagsDomain | io_scene_psk_psa/psa/config.py:71-75 | a sequence has flags exactly when some entry targets one of its bones, and a bone exactly when some entry targets it |
| PsaConfig.PsaConfig.constructor | io_scene_psk_psa/psa/config.py:9-11 | a new configuration has no sequence flags |
| PsaConfig.PsaConfig.ApplyRemoveTracksEntry | io_scene_psk_psa/psa/config.py:58-75 | one RemoveTracks entry applied to the flags: a key naming a PSA sequence (up to case) and a bone index sets that bone's flags, any other key leaves them unchanged |
| PsaConfig.ReadPsaConfig | io_scene_psk_psa/psa/config.py:51-77 | without a RemoveTracks section the flags are empty; otherwise the entries' fold, whose meaning the lemmas above state |
| LegacyHelpers.GroupSeeds | io_scene_psk_psa/helpers.py:79-85 | a bone is a seed exactly when it is ungrouped and -1 is requested, or its group index is requested |
| LegacyHelpers.GetExportBoneIndicesForBoneGroups | io_scene_psk_psa/helpers.py:62-99 | ValueError for a missing or non-armature object; otherwise the indices the stack walk reaches, as GroupExportIndicesProperties describes (the same code as io_export_psk_psa/helpers.py:23-60) |
| LegacyHelpers.GroupExportIndicesProperties | io_scene_psk_psa/helpers.py:87-99 | the indices ascend (no duplicates), hold every bone of a requested group and the parent of every index, and each is a requested bone or an ancestor of one (also io_export_psk_psa/helpers.py:48-60) |
| LegacyHelpers.GetPsaSequenceName | io_scene_psk_psa/helpers.py:55-59 | the stored original_sequence_name when asked for and present, the action name otherwise |
| LegacyHelpers.BoneGroupList.PopulateBoneGroupsList | io_export_psk_psa/helpers.py:4-16 | the list becomes '(unassigned)' with index -1, then one entry per bone group with its index, all selected |
| Nla.Filter | io_scene_psk_psa/helpers.py:18-20 | the strips of one track that match, in order, and nothing else |
| Nla.Picked | io_scene_psk_psa/shared/helpers.py:21-28 | the matching strips of the searched tracks, track by track |
| Nla.GetNlaStripsInFrameRange | io_scene_psk_psa/shared/helpers.py:18-28 | no strips without animation data; otherwise exactly the strips of unmuted tracks that span the range, start in [min, max) or end in (min, max] |
| Nla.InFrameRangeIsOverlap | io_scene_psk_psa/shared/helpers.py:25-27 | for a proper strip and range, the test picks strips that overlap the range with positive length, and a zero-length strip exactly when it lies in the closed range |
| Nla.EndingInsideIsPickedByBoth | io_scene_psk_psa/shared/helpers.py:25-27 | a strip ending inside the range is picked by both the newer and the older range test |
| Nla.CollectTrackStrips | io_scene_psk_psa/helpers.py:29-31 | the inner loop collects exactly the matching strips of one track, in order |
| Nla.CollectStrips | io_scene_psk_psa/helpers.py:28-31 | the nested loops collect the matching strips of every track, muted ones included, in track and strip order |
| Nla.GetNlaStripsInTimeframe | io_scene_psk_psa/helpers.py:24-32 | [] without an object or animation data; otherwise exactly the strips with frame_end >= min and frame_start <= max |
| Nla.GetNlaStripsEndingAtFrame | io_scene_psk_psa/helpers.py:13-21 | [] without an object or animation data; otherwise exactly the strips whose frame_end equals the frame |
| BoneSelection.ReachesInside | io_scene_psk_psa/shared/helpers.py:112-122 | a parent-closed set that holds a bone holds every bone it reaches through parents |
| BoneSelection.ClosureIsLeast | io_scene_psk_psa/shared/helpers.py:112-122 | the ancestor closure holds every seed and the parent of each of its bones, and lies inside every set that does both |
| BoneSelection.WalkStep | io_scene_psk_psa/shared/helpers.py:115-122 | one pop, push-parent-if-unrecorded, record step keeps the walk's invariant and stays inside the closure |
| BoneSelection.WalkDone | io_scene_psk_psa/shared/helpers.py:115-122 | with the stack empty the recorded bones hold the seeds and the parents of their bones |
| BoneSelection.CloseUnderAncestors | io_scene_psk_psa/shared/helpers.py:112-122 | the stack walk ends, even on a cyclic parent relation, and records exactly the ancestor closure of the seeds |
| BoneSelection.SortedIndices | io_scene_psk_psa/shared/helpers.py:124-126 | the sort gives the recorded positions in strictly ascending order and nothing else |
| BoneSelection.SelectedPositions | io_scene_psk_psa/shared/helpers.py:102-110 | a bone is explicitly selected exactly when the mode is ALL, it is in a chosen collection, or it has no collection and -1 is chosen |
| BoneSelection.NamesAt | io_scene_psk_psa/shared/helpers.py:133 | the names of the bones at the given positions, in that order |
| BoneSelection.GetExportBoneNames | io_scene_psk_psa/shared/helpers.py:79-158 | ValueError for a missing or non-armature object; otherwise the names of the exported positions, or RuntimeError exactly when they hold more than one parentless bone |
| BoneSelection.ExportPositionsProperties | io_scene_psk_psa/shared/helpers.py:112-133 | the exported positions ascend (no duplicates), hold every selected bone and the parent of every exported bone, and nothing that is not a selected bone or its ancestor |
| BoneSelection.NothingSelected | io_scene_psk_psa/shared/helpers.py:137-158 | a filter that selects nothing exports nothing, without error |
| PsxBones.IndexOf | io_scene_psk_psa/shared/helpers.py:194 | list.index: the first position holding the bone, or none for the ValueError |
| PsxBones.ParentPosition | io_scene_psk_psa/shared/helpers.py:194 | the parent's position among the exported bones, always in range |
| PsxBones.Entries | io_scene_psk_psa/shared/helpers.py:189-194 | one entry per exported bone, in export order, with its name, whether it has a parent and its parent's position |
| PsxBones.EncodeName | io_scene_psk_psa/shared/helpers.py:191 | the cp1252 bytes of the name when they fit the 64-byte field, otherwise RuntimeError or ValueError |
| PsxBones.BoneError | io_scene_psk_psa/shared/helpers.py:189-241 | a bone raises nothing only when its name fits and its parent comes before it |
| PsxBones.ExpectedPsxBones | io_scene_psk_psa/shared/helpers.py:188-262 | one record per entry |
| PsxBones.NoChildrenYet | io_scene_psk_psa/shared/helpers.py:196 | before bone n is placed, no earlier bone counts it as a child |
| PsxBones.OkBonesPrecede | io_scene_psk_psa/shared/helpers.py:193-198 | bones that raise nothing come after their parents |
| PsxBones.BuildStep | io_scene_psk_psa/shared/helpers.py:193-198 | placing a bone raises its parent's children count by one and adds it with no children |
| PsxBones.CreatePsxBonesFromBlenderBones | io_scene_psk_psa/shared/helpers.py:173-262 | succeeds exactly when the axes are valid and no bone raises; the records are the expected ones, and an error is the first failing bone's or the axis assertion |
| PsxBones.PlaceBones | io_scene_psk_psa/shared/helpers.py:188-262 | the loop over the bones gives ExpectedPsxBones exactly when no bone raises, else the error of the first bone that raises |
| PsxBones.PlaceBone | io_scene_psk_psa/shared/helpers.py:189-255 | one bone: its BoneError when it raises, else the parent's children count raised and the bone appended with no children |
| PsxBones.SumChildCountsStep | io_scene_psk_psa/shared/helpers.py:196 | counting one more entry adds one exactly when its parent is among the counted bones |
| PsxBones.ChildrenCountsAddUp | io_scene_psk_psa/shared/helpers.py:193-198 | the children counts add up to the number of bones whose parent is in the list |
| PsxBones.ParentIndicesPointBack | io_scene_psk_psa/shared/helpers.py:193-198 | when nothing raises, a bone with a parent points at an earlier bone, one without points at 0, and the first bone has no parent |
| PsxBones.RootCountAtLeastTwo | io_scene_psk_psa/shared/helpers.py:138-139 | two parentless bones count as two roots |
| PsxBones.OnlyFirstParentless | io_scene_psk_psa/shared/helpers.py:112-158 | among the bones get_export_bone_names returns, only the first can lack a parent in the list |
| PsxBones.ExportedBonesFormTree | io_scene_psk_psa/shared/helpers.py:79-262 | the exported bones of one armature form a tree in export order, and every bone after the first points at its own armature parent |
| PsxBones.ParentsFirstExportsParentsFirst | io_scene_psk_psa/shared/helpers.py:193-198 | when the armature lists parents before children, so does the export, and the IndexError cannot arise |
| PsxBones.ParentPositionBefore | io_scene_psk_psa/shared/helpers.py:194 | in ascending positions, a parent at a lower armature index has a lower position |
| PsxBoneList.CollectionIndicesOf | io_scene_psk_psa/shared/helpers.py:322 | exactly the indices paired with the armature's name |
| PsxBoneList.FindBone | io_scene_psk_psa/shared/helpers.py:362 | armature.bones[name]: a bone with that name, or none when no bone has it |
| PsxBoneList.LookUpBones | io_scene_psk_psa/shared/helpers.py:362 | one bone per name, each bearing that name, or KeyError |
| PsxBoneList.LookUpNamesAt | io_scene_psk_psa/shared/helpers.py:360-362 | with unique bone names, looking up the names of some bones finds exactly those bones |
| PsxBoneList.CollectBoneNames | io_scene_psk_psa/shared/helpers.py:319-324 | succeeds exactly when get_export_bone_names succeeds for every armature, and then maps each armature to its exported names; errors are ValueError or RuntimeError |
| PsxBoneList.ShiftParentIndices | io_scene_psk_psa/shared/helpers.py:376-379 | every bone but the first has its parent index moved on by the offset; nothing else changes |
| PsxBoneList.Tagged | io_scene_psk_psa/shared/helpers.py:383 | each bone of the block paired with its armature |
| PsxBoneList.NameKey | io_scene_psk_psa/shared/helpers.py:386 | the case-folded name has the name's length |
| PsxBoneList.NameConflict | io_scene_psk_psa/shared/helpers.py:385-395 | a raise happens only with several armatures and only when two bones share a case-insensitive name |
| PsxBoneList.CaseInsensitiveDuplicateAccepted | io_scene_psk_psa/shared/helpers.py:387-395 | two bones named Bone and BONE in one armature pass the check although their names clash |
| PsxBoneList.CheckBoneNameConflicts | io_scene_psk_psa/shared/helpers.py:385-395 | the counting loop raises exactly when the conflict rule above says so |
| PsxBoneList.LookUpExported | io_scene_psk_psa/shared/helpers.py:360-362 | looking up an armature's exported names finds its exported positions |
| PsxBoneList.AppendArmature | io_scene_psk_psa/shared/helpers.py:359-383 | one armature's bones go through create_psx_bones_from_blender_bones, their parent indices move past the bones already listed, its root index is the list's length, and they are appended; it fails exactly when that armature's bones raise |
| PsxBoneList.AppendArmatures | io_scene_psk_psa/shared/helpers.py:357-383 | all armatures appended in order: succeeds exactly when no armature's bones raise, with the expected bones and root indices |
| PsxBoneList.CreatePsxBones | io_scene_psk_psa/shared/helpers.py:289-401 | RuntimeError for several armatures outside WORLD space; succeeds exactly when no step raises; then a lone dummy root with root map {None: 0} when there are no bones, else the synthetic root (several armatures) and each armature's shifted bones |
| PsxBoneList.BlockPointsBack | io_scene_psk_psa/shared/helpers.py:364-372 | an armature's converted bones form a tree in list order whose first bone has parent index 0 |
| PsxBoneList.AppendPointsBack | io_scene_psk_psa/shared/helpers.py:376-383 | appending a shifted block keeps every parent index pointing at an earlier bone |
| PsxBoneList.AppendedPointsBack | io_scene_psk_psa/shared/helpers.py:359-383 | blocks that point back, appended in turn, give a list that points back |
| PsxBoneList.ArmaturesPointBack | io_scene_psk_psa/shared/helpers.py:359-383 | the bones of the first n armatures, appended, point back |
| PsxBoneList.CreatedBonesPointBack | io_scene_psk_psa/shared/helpers.py:289-401 | the returned bone list is in parent-first order: each parent index names an earlier bone |
| PsxBoneList.AppendedKeepsStart | io_scene_psk_psa/shared/helpers.py:383 | appending keeps the earlier bones in front |
| PsxBoneList.SyntheticRootFirst | io_scene_psk_psa/shared/helpers.py:345-353 | with several armatures the synthetic root, whose children count is the total bone count, stays first |
| PsxBoneList.FalseRootIffDummyOrSeveral | io_scene_psk_psa/shared/helpers.py:275-277 | has_false_root_bone holds exactly when a dummy root or a synthetic root was made: no bones at all, or several armatures |
| PsxBoneList.RootNameClashRaises | io_scene_psk_psa/shared/helpers.py:392-395 | with several armatures, an exported bone named like the root bone up to case raises |
| SharedData.ColorComponents | io_scene_psk_psa/shared/data.py:13-17 | iteration yields four components, r, g, b, a |
| SharedData.ColorEquals | io_scene_psk_psa/shared/data.py:19-20 | == holds exactly when r, g, b and a agree, that is when the iterations are equal |
| SharedData.EncodeColor | io_scene_psk_psa/shared/data.py:5-11 | the record is four bytes |
| SharedData.DecodeColor | io_scene_psk_psa/shared/data.py:5-11 | every four bytes are the encoding of the colour read from them |
| SharedData.ColorRoundTrip | io_scene_psk_psa/shared/data.py:5-11 | reading back a stored colour gives it back |
| SharedData.Vector3Components | io_scene_psk_psa/shared/data.py:55-58 | iteration yields x, y, z |
| SharedData.EncodeVector2 | io_scene_psk_psa/shared/data.py:34-38 | the record is eight bytes |
| SharedData.DecodeVector2 | io_scene_psk_psa/shared/data.py:34-38 | every eight bytes are the encoding of the vector read from them |
| SharedData.Vector2RoundTrip | io_scene_psk_psa/shared/data.py:34-38 | reading back a stored Vector2 gives it back |
| SharedData.EncodeVector3 | io_scene_psk_psa/shared/data.py:48-53 | the record is twelve bytes |
| SharedData.DecodeVector3 | io_scene_psk_psa/shared/data.py:48-53 | every twelve bytes are the encoding of the vector read from them |
| SharedData.Vector3RoundTrip | io_scene_psk_psa/shared/data.py:48-53 | reading back a stored Vector3 gives it back |
| SharedData.Vector3ZeroLayout | io_scene_psk_psa/shared/data.py:63-65 | zero() iterates as three zeros and is stored as twelve zero bytes |
| SharedData.QuaternionComponents | io_scene_psk_psa/shared/data.py:76-80 | iteration yields four values, w first |
| SharedData.EncodeQuaternion | io_scene_psk_psa/shared/data.py:68-74 | the record is sixteen bytes |
| SharedData.DecodeQuaternion | io_scene_psk_psa/shared/data.py:68-74 | every sixteen bytes are the encoding of the quaternion read from them |
| SharedData.QuaternionRoundTrip | io_scene_psk_psa/shared/data.py:68-74 | reading back a stored quaternion gives it back |
| SharedData.QuaternionStorageVersusIteration | io_scene_psk_psa/shared/data.py:68-87 | storage is x, y, z, w while iteration is w, x, y, z; identity() iterates as (1, 0, 0, 0) |
| SharedData.EncodePsxBone | io_scene_psk_psa/shared/data.py:90-100 | the record is 120 bytes: name[64], flags, children_count, parent_index, rotation, location, length, size |
| SharedData.DecodePsxBone | io_scene_psk_psa/shared/data.py:90-100 | every 120 bytes are the encoding of the bone read from them |
| SharedData.PsxBoneSizeSlice | io_scene_psk_psa/shared/data.py:99 | the size vector occupies bytes 108 to 120 |
| SharedData.PsxBoneRoundTrip | io_scene_psk_psa/shared/data.py:90-100 | reading back a stored bone gives it back |
| SharedData.EncodeSection | io_scene_psk_psa/shared/data.py:103-109 | the header is 32 bytes |
| SharedData.DecodeSection | io_scene_psk_psa/shared/data.py:103-109 | every 32 bytes are the encoding of the header read from them |
| SharedData.SectionRoundTrip | io_scene_psk_psa/shared/data.py:103-109 | reading back a stored header gives it back |
| SharedData.NewSectionLayout | io_scene_psk_psa/shared/data.py:103-113 | a new header has the given name, type_flags 1999801 and data_size = data_count = 0, stored as the name padded to 20 bytes, then 1999801, 0, 0 little-endian |
| PsaData.EncodeSequence | io_scene_psk_psa/psa/data.py:14-28 | the record is 168 bytes in the declared field order |
| PsaData.DecodeSequence | io_scene_psk_psa/psa/data.py:14-28 | every 168 bytes are the encoding of the sequence read from them |
| PsaData.SequenceRoundTrip | io_scene_psk_psa/psa/data.py:14-28 | reading back a stored sequence record gives it back |
| PsaData.EncodeKey | io_scene_psk_psa/psa/data.py:30-35 | the record is 32 bytes: location, rotation, time |
| PsaData.DecodeKey | io_scene_psk_psa/psa/data.py:30-35 | every 32 bytes are the encoding of the key read from them |
| PsaData.KeyRoundTrip | io_scene_psk_psa/psa/data.py:30-35 | reading back a stored key gives it back |
| PsaData.KeyData | io_scene_psk_psa/psa/data.py:37-45 | exactly seven values: the rotation's w, x, y, z, then the location's x, y, z |
| PsaData.KeyDataLayout | io_scene_psk_psa/psa/data.py:30-45 | each of the seven values read off its offset in the stored record; w comes first though stored last, and the time is not among them |
| PsaData.EmptyPsa | io_scene_psk_psa/psa/data.py:50-53 | no bones, no keys and an empty insertion-ordered sequence map |
| PsaData.Psa.constructor | io_scene_psk_psa/psa/data.py:50-53 | a new Psa holds the empty contents |
| PskData.WedgeKeyInjective | io_scene_psk_psa/psk/data.py:15-16 | two wedges have the same key exactly when point_index, u, v and material_index all agree |
| PskData.ToWedge16 | io_scene_psk_psa/psk/data.py:18-26 | the Wedge16 keeps u and v, zeroes reserved and padding, and keeps the point and material index whenever they fit the 32-bit and 8-bit fields |
| PskData.EncodeWedge16 | io_scene_psk_psa/psk/data.py:18-26 | the record is 16 bytes |
| PskData.DecodeWedge16 | io_scene_psk_psa/psk/data.py:18-26 | every 16 bytes are the encoding of the Wedge16 read from them |
| PskData.Wedge16RoundTrip | io_scene_psk_psa/psk/data.py:18-26 | reading back a stored Wedge16 gives it back |
| PskData.EncodeWedge32 | io_scene_psk_psa/psk/data.py:28-34 | the record is 16 bytes |
| PskData.DecodeWedge32 | io_scene_psk_psa/psk/data.py:28-34 | every 16 bytes are the encoding of the Wedge32 read from them |
| PskData.EncodeFace | io_scene_psk_psa/psk/data.py:36-42 | the record is 12 bytes |
| PskData.DecodeFace | io_scene_psk_psa/psk/data.py:36-42 | every 12 bytes are the encoding of the face read from them |
| PskData.FaceRoundTrip | io_scene_psk_psa/psk/data.py:36-42 | reading back a stored face gives it back |
| PskData.EncodeFace32 | io_scene_psk_psa/psk/data.py:44-51 | the packed record is 18 bytes |
| PskData.DecodeFace32 | io_scene_psk_psa/psk/data.py:44-51 | every 18 bytes are the encoding of the Face32 read from them |
| PskData.EncodeFaceEntry | io_scene_psk_psa/psk/data.py:36-51 | a face is written as 12 or 18 bytes according to its layout |
| PskData.EncodeMaterial | io_scene_psk_psa/psk/data.py:53-62 | the record is 88 bytes |
| PskData.DecodeMaterial | io_scene_psk_psa/psk/data.py:53-62 | every 88 bytes are the encoding of the material read from them |
| PskData.MaterialRoundTrip | io_scene_psk_psa/psk/data.py:53-62 | reading back a stored material gives it back |
| PskData.EncodeWeight | io_scene_psk_psa/psk/data.py:76-81 | the record is 12 bytes |
| PskData.DecodeWeight | io_scene_psk_psa/psk/data.py:76-81 | every 12 bytes are the encoding of the weight read from them |
| PskData.WeightRoundTrip | io_scene_psk_psa/psk/data.py:76-81 | reading back a stored weight gives it back |
| PskData.EncodeMorphInfo | io_scene_psk_psa/psk/data.py:83-87 | the record is 68 bytes |
| PskData.EncodeMorphData | io_scene_psk_psa/psk/data.py:89-94 | the record is 28 bytes |
| PskData.WedgeAndFaceLayout | io_scene_psk_psa/psk/data.py:18-42 | both wedge layouts are 16 bytes and a face stores three unsigned 16-bit wedge indices first |
| PskData.Psk.constructor | io_scene_psk_psa/psk/data.py:141-153 | every list starts empty, so every has_* property (lines 96-114) is false |
| PskData.RunEnd | io_scene_psk_psa/psk/data.py:128-132 | the inner scan ends between its start and the end of the list |
| PskData.NormalizedFrom | io_scene_psk_psa/psk/data.py:122-139 | the only failure of the loop is ZeroDivisionError |
| PskData.NormalizedUntilZero | io_scene_psk_psa/psk/data.py:122-139 | what the loop leaves when it raises has as many records as it was given |
| PskData.UntilZeroKeepsPoints | io_scene_psk_psa/psk/data.py:122-139 | what the loop leaves keeps every record's point index, so sorted weights stay sorted when it raises |
| PskData.SortAndNormalizeWeights | io_scene_psk_psa/psk/data.py:116-139 | the weights become the normalisation of their stable sort by point index; on ZeroDivisionError they are left sorted with the earlier runs divided |
| PskData.NormalizeRuns | io_scene_psk_psa/psk/data.py:119-139 | the outer loop computes the normalisation of the sorted weights, or leaves them as NormalizedUntilZero describes |
| PskData.SumOfRun | io_scene_psk_psa/psk/data.py:123-132 | the first inner loop finds the run's end and the sum of its weights |
| PskData.DivideRun | io_scene_psk_psa/psk/data.py:135-136 | the second inner loop divides exactly the weights of the run and leaves every other record as it was |
| PskData.NormalizeStepFails | io_scene_psk_psa/psk/data.py:136 | a run whose weights sum to zero makes the whole normalisation raise ZeroDivisionError |
| PskData.OuterStep | io_scene_psk_psa/psk/data.py:122-139 | one pass of the outer loop over a run with a non-zero sum keeps the loop's invariant |
| PskData.RunEndOfStart | io_scene_psk_psa/psk/data.py:128-132 | every record of a run has the run's point index and the next record starts a new run |
| PskData.RunContaining | io_scene_psk_psa/psk/data.py:122-139 | every record lies in some run |
| PskData.NormalizedFromRuns | io_scene_psk_psa/psk/data.py:122-139 | when the loop finishes, each run from the start on is its records divided by the run's sum |
| PskData.NormalizedFromOk | io_scene_psk_psa/psk/data.py:122-139 | the loop finishes when no run sums to zero |
| PskData.NormalizedSpec | io_scene_psk_psa/psk/data.py:119-139 | normalisation succeeds exactly when no run of equal point indices sums to zero, keeps the number of records and divides each run by its own sum |
| PskData.SumRangeDivided | io_scene_psk_psa/psk/data.py:136 | dividing every weight of a range by d divides their sum by d |
| PskData.NormalizedKeepsRecords | io_scene_psk_psa/psk/data.py:136 | normalisation changes only the weight field of each record |
| PskData.NormalizedRunsSumToOne | io_scene_psk_psa/psk/data.py:119-139 | afterwards the weights of every run sum to one |
| PskData.NormalizeIdempotent | io_scene_psk_psa/psk/data.py:116-139 | normalising a normalised list changes nothing |
| PskData.SortedRunIsPoint | io_scene_psk_psa/psk/data.py:117-139 | in a list sorted by point index a run holds every record of its point index and no other |
| PskData.SortAndNormalizeSpec | io_scene_psk_psa/psk/data.py:116-139 | afterwards the records are ordered by point index, the multiset of (point_index, bone_index) pairs is unchanged, and each point's records form one run whose weights sum to one |
| StableSort.SortByKey | io_scene_psk_psa/psk/data.py:117 | list.sort(key=...): the result is ordered by key, a permutation of the input, and keeps the relative order of items with equal keys |
| StableSort.InsertProperties | io_scene_psk_psa/psk/data.py:117 | inserting one item into a key-ordered list keeps it ordered, adds exactly that item, and puts it before the items with its key |
| StableSort.SortSortedIsIdentity | io_scene_psk_psa/psk/data.py:117 | sorting a list already ordered by key leaves it unchanged |
| StableSort.MapSortByKey | io_scene_psk_psa/psk/data.py:117 | sorting permutes the images of the items under any function as well |
| StableSort.SortedArrangementUnique | io_scene_psk_psa/psk/export/operators.py:242-245 | two key-ordered arrangements of the same items with pairwise distinct keys are equal |
| OrderedDict.Dict.Keys | io_scene_psk_psa/psa/data.py:52 | the keys in insertion order |
| OrderedDict.Dict.Values | io_scene_psk_psa/psa/data.py:52 | the values in insertion order |
| OrderedDict.Dict.IndexOf | io_scene_psk_psa/psa/reader.py:118 | the position of the key, or none when it is absent |
| OrderedDict.Dict.Get | io_scene_psk_psa/psa/reader.py:118 | d[k] finds k's value, or KeyError exactly when k is absent |
| OrderedDict.Empty | io_scene_psk_psa/psa/data.py:52 | an empty dictionary has no keys and no values |
| OrderedDict.PutSpec | io_scene_psk_psa/psa/reader.py:118 | d[k] = v keeps the keys distinct, makes d[k] give v, leaves other keys alone, keeps the order of the existing keys and appends a new key at the end |
| OrderedDict.PutExisting | io_scene_psk_psa/psa/reader.py:118 | assigning to a present key replaces its value in place |
| OrderedDict.PutNew | io_scene_psk_psa/psa/reader.py:118 | assigning to a new key appends it |
| OrderedDict.GetOfValid | io_scene_psk_psa/psa/reader.py:118 | in a dictionary without repeated keys every entry is found by its key |
| OrderedDict.PutAllDistinct | io_scene_psk_psa/psa/reader.py:112-118 | assigning distinct new keys in turn appends them in order |
| Bytes.LittleEndian | io_scene_psk_psa/shared/data.py:93-95 | the n-byte little-endian storage of a ctypes integer field has n bytes |
| Bytes.FromLittleEndian | io_scene_psk_psa/shared/data.py:93-95 | the value read from n stored bytes is below 256^n |
| Bytes.FromLittleEndianOfLittleEndian | io_scene_psk_psa/shared/data.py:93-95 | reading back a stored value below 256^n gives the value |
| Bytes.LittleEndianOfFromLittleEndian | io_scene_psk_psa/shared/data.py:93-95 | storing the value read from n bytes gives the same bytes |
| Bytes.IntType.Modulus | io_scene_psk_psa/psk/data.py:20-25 | the number of values a field of the given ctypes width holds |
| Bytes.IntType.Wrap | io_scene_psk_psa/shared/data.py:93-95 | assigning a Python int to a ctypes integer field keeps it when it fits and otherwise stores a value the field can hold |
| Bytes.IntType.Encode | io_scene_psk_psa/psk/data.py:20-25 | a field of the type occupies exactly its size in bytes |
| Bytes.IntType.Decode | io_scene_psk_psa/psk/data.py:20-25 | the value read from a field is in the type's range |
| Bytes.WrapI32Small | io_scene_psk_psa/shared/data.py:93-95 | a non-negative value below 2^31 is stored unchanged in a c_int32 field |
| Bytes.DecodeEncode | io_scene_psk_psa/psk/data.py:20-25 | reading back a stored in-range value gives the value |
| Bytes.EncodeDecode | io_scene_psk_psa/psk/data.py:20-25 | storing the value read from a field gives the same bytes |
| Bytes.WrapOfStored | io_scene_psk_psa/shared/data.py:93-95 | a signed field reads its upper half of stored patterns as negative values (two's complement) |
| Bytes.EncodeF32 | io_scene_psk_psa/shared/data.py:36-37 | a c_float field occupies four bytes |
| Bytes.DecodeF32 | io_scene_psk_psa/shared/data.py:36-37 | the float read from four bytes stores back as the same bytes |
| Bytes.EncodeI32s | io_scene_psk_psa/psk/data.py:90-94 | consecutive c_int32 values take four bytes each |
| Bytes.DecodeI32s | io_scene_psk_psa/psk/data.py:90-94 | four bytes per value are read, and storing them again gives the bytes |
| Bytes.I32sRoundTrip | io_scene_psk_psa/psk/data.py:90-94 | reading back stored c_int32 values gives them |
| Bytes.EncodeF32s | io_scene_psk_psa/shared/data.py:68-87 | consecutive c_float values take four bytes each |
| Bytes.DecodeF32s | io_scene_psk_psa/shared/data.py:68-87 | four bytes per value are read, and storing them again gives the bytes |
| Bytes.F32sRoundTrip | io_scene_psk_psa/shared/data.py:68-87 | reading back stored c_float values gives them |
| Bytes.Zeros | io_scene_psk_psa/shared/data.py:103-108 | a freshly created structure is zero-filled |
| Bytes.CharArrayValue | io_scene_psk_psa/shared/data.py:92 | reading a c_char array gives the bytes before its first NUL, all of them when it has none |
| Bytes.CharArray | io_scene_psk_psa/shared/data.py:105 | assigning bytes to a zero-filled c_char array keeps them at the front and zeroes the rest |
| Bytes.CharArrayValueOfPrefix | io_scene_psk_psa/shared/data.py:92 | a NUL-free prefix followed by NUL (or the end) is what the array reads as |
| Bytes.CharArrayRoundTrip | io_scene_psk_psa/shared/data.py:105 | assigning a NUL-free name to a c_char array and reading it back gives the name |
| Chunks.Stream.constructor | io_scene_psk_psa/psk/writer.py:14-23 | an opened output file starts empty |
| Chunks.Stream.Write | io_scene_psk_psa/psk/writer.py:20-23 | fp.write appends the bytes to the file |
| Chunks.WriteSection | io_scene_psk_psa/psk/writer.py:14-23 | _write_section appends the header and then every record |
| Chunks.SectionWithoutRecords | io_scene_psk_psa/psa/writer.py:8-17 | a section written without data is its header alone: the name, type_flags 1999801 and zero data_size and data_count |
| Chunks.SectionWithRecords | io_scene_psk_psa/psa/writer.py:8-17 | a section with records declares their size and number and is followed by data_size * data_count payload bytes |
| Chunks.ReadSection | io_scene_psk_psa/psk/reader.py:24 | Section.from_buffer_copy(fp.read(32)) succeeds exactly when 32 bytes remain and then reads them |
| Chunks.ReadBytes | io_scene_psk_psa/psk/reader.py:13 | fp.read(n) returns the next n bytes, fewer at the end, the rest for -1, and raises ValueError below -1 |
| Chunks.RecordSlices | io_scene_psk_psa/psk/reader.py:11-17 | read_types yields data_count records of the class's size, or raises ValueError when one does not fit the buffer |
| Chunks.ReadTypes | io_scene_psk_psa/psa/reader.py:95-101 | the loop over range(data_count) that advances the offset by data_size gives the records of RecordSlices |
| Chunks.RecordSlicesStride | io_scene_psk_psa/psk/reader.py:14-17 | record i is read at offset i * data_size, the declared stride |
| Chunks.RecordSlicesOfConcat | io_scene_psk_psa/psk/reader.py:11-17 | records written one after another are read back |
| Chunks.ReadSectionOfBytes | io_scene_psk_psa/psk/reader.py:24 | a written header reads back as that header |
| Chunks.ReadHeaderAndRecords | io_scene_psk_psa/psk/reader.py:11-24 | a header followed by the records it declares reads back as the header and those records |
| Chunks.ReadWrittenHeader | io_scene_psk_psa/psa/reader.py:107-109 | a section written without records reads back as its header with zero size and count |
| Chunks.ReadBytesOfStored | io_scene_psk_psa/psa/reader.py:97 | reading the length of stored bytes gives those bytes |
| Chunks.RecordSlicesOfJoin | io_scene_psk_psa/psa/reader.py:95-101 | cutting a join of n-byte records into n-byte records gives them back |
| Chunks.DecodeAll | io_scene_psk_psa/psa/reader.py:100 | from_buffer_copy is applied to every record, one result per record |
| Chunks.DecodeAllOfEncoded | io_scene_psk_psa/psa/reader.py:100 | decoding encoded records gives the list back when each record round-trips |
| Chunks.DecodeAllOfEncodedAs | io_scene_psk_psa/psa/reader.py:100 | decoding encoded records gives the image of the list when each record reads back as its image |
| PolyFlags.TriangleTypeValue | io_scene_psk_psa/psk/properties.py:39 | an unlisted triangle type contributes 0 |
| PolyFlags.BitFlagValue | io_scene_psk_psa/psk/properties.py:41 | an unlisted flag name contributes 0 |
| PolyFlags.FlagBits | io_scene_psk_psa/psk/properties.py:40-41 | the OR of the listed flags never touches the low nibble |
| PolyFlags.PolyFlagsOf | io_scene_psk_psa/psk/properties.py:37-42 | the poly flags always fit in one byte |
| PolyFlags.TriangleTypeAndBitFlagsToPolyFlags | io_scene_psk_psa/psk/properties.py:37-42 | the loop ORing each flag's value into the type's value computes PolyFlagsOf, whatever order the set yields |
| PolyFlags.FlagBitsAdd | io_scene_psk_psa/psk/properties.py:40-41 | adding a name to the set ORs in its value |
| PolyFlags.TypeWithValue | io_scene_psk_psa/psk/properties.py:47-49 | next() finds a listed type with the value, or fails exactly when no listed type has it |
| PolyFlags.FlagsSet | io_scene_psk_psa/psk/properties.py:50 | a listed flag is in the set exactly when its bit is set |
| PolyFlags.PolyFlagsToTriangleTypeAndBitFlags | io_scene_psk_psa/psk/properties.py:45-51 | the result is a listed type and listed flags, NORMAL when the low nibble matches no type |
| PolyFlags.RoundTrip | io_scene_psk_psa/psk/properties.py:37-51 | decoding the flags of a listed type and listed flags gives them back |
| PolyFlags.DecodeEncodeBits | io_scene_psk_psa/psk/properties.py:37-51 | the same on the one-byte encoding |
| PolyFlags.ReEncode | io_scene_psk_psa/psk/properties.py:37-51 | encoding decoded flags keeps bits 4-7 and the low nibble only when it is a listed type value |
| PolyFlags.EncodeDecodeBits | io_scene_psk_psa/psk/properties.py:37-51 | the same on the one-byte encoding |
| PolyFlags.UnknownNamesIgnored | io_scene_psk_psa/psk/properties.py:37-42 | unlisted type and flag names change nothing beyond NORMAL |
| PolyFlags.ComponentsChoice | io_scene_psk_psa/psk/properties.py:54-59 | ALL imports mesh and armature, MESH only the mesh, ARMATURE only the armature |
| MaterialOrder.FirstIndex | io_scene_psk_psa/psk/export/operators.py:245 | material_names.index(name) is the first position holding the name, and exists exactly when the name is listed |
| MaterialOrder.GetSortedMaterialsByNames | io_scene_psk_psa/psk/export/operators.py:233-246 | the sorted list is a permutation of the materials |
| MaterialOrder.ListedMembers | io_scene_psk_psa/psk/export/operators.py:243-244 | the two comprehensions keep exactly the materials whose name is (or is not) listed |
| MaterialOrder.ListedConcat | io_scene_psk_psa/psk/export/operators.py:243-244 | filtering distributes over concatenation |
| MaterialOrder.ListedAll | io_scene_psk_psa/psk/export/operators.py:243-244 | filtering keeps a list all of whose names pass |
| MaterialOrder.ListedNone | io_scene_psk_psa/psk/export/operators.py:243-244 | filtering drops a list none of whose names pass |
| MaterialOrder.SortedParts | io_scene_psk_psa/psk/export/operators.py:243-246 | the result is the listed materials sorted by name position, followed by the unlisted ones |
| MaterialOrder.SortedMaterialsLayout | io_scene_psk_psa/psk/export/operators.py:233-246 | a permutation with listed materials first, ordered by name position, ties kept in input order, then unlisted materials in input order; no names means no change |
| MaterialOrder.SortedOrder | io_scene_psk_psa/psk/export/operators.py:243-246 | a listed material is preceded only by listed materials with no later name position |
| MaterialOrder.SortedFilters | io_scene_psk_psa/psk/export/operators.py:243-246 | the listed part is the stable sort of the listed materials and the unlisted part is unchanged |
| MaterialOrder.NamesOf | io_scene_psk_psa/psk/export/operators.py:27 | the names of materials, in order |
| MaterialOrder.DistinctNamesKept | io_scene_psk_psa/psk/export/operators.py:233-246 | a rearrangement of materials with distinct names has distinct names |
| MaterialOrder.UserOrderKept | io_scene_psk_psa/psk/export/operators.py:24-28 | when the list names the materials in some arrangement, sorting by those names gives that arrangement, whatever order they are found in |
| MaterialOrder.OwnPositions | io_scene_psk_psa/psk/export/operators.py:245 | materials with distinct names are ordered and keyed apart by their own name positions |
| MaterialOrder.OwnNamesKeepOrder | io_scene_psk_psa/psk/export/operators.py:233-246 | sorting materials with distinct names by their own names leaves them in place |
| MaterialOrder.SortIdempotent | io_scene_psk_psa/psk/export/operators.py:233-246 | sorting again by the sorted list's names changes nothing |
| MaterialOrder.Enumerated | io_scene_psk_psa/psk/export/operators.py:31-34 | one entry per material, with its name and its position as index |
| MaterialOrder.EnumerateMaterials | io_scene_psk_psa/psk/export/operators.py:31-34 | the enumerate loop adds exactly the Enumerated entries |
| MaterialOrder.ItemNames | io_scene_psk_psa/psk/export/operators.py:27 | the names shown by the list entries, in order |
| MaterialOrder.Moved | io_scene_psk_psa/psk/export/operators.py:162-166 | collection.move keeps the length and puts the moved item at its target |
| MaterialOrder.Swapped | io_scene_psk_psa/psk/export/operators.py:162-166 | trading two neighbours keeps the length |
| MaterialOrder.AdjacentMoveSwaps | io_scene_psk_psa/psk/export/operators.py:162-184 | moving to a neighbouring slot either way trades the two, keeps the items, and moving back restores the list |
| MaterialOrder.MoveUpSwaps | io_scene_psk_psa/psk/export/operators.py:162-166 | move up trades the active item with the one above |
| MaterialOrder.MoveDownSwaps | io_scene_psk_psa/psk/export/operators.py:180-184 | move down trades the active item with the one below |
| MaterialOrder.SwappedMultiset | io_scene_psk_psa/psk/export/operators.py:162-184 | a move keeps the same items |
| MaterialOrder.SwappedTwice | io_scene_psk_psa/psk/export/operators.py:162-184 | moving down after moving up restores the list |
| MaterialOrder.MaterialNameList.constructor | io_scene_psk_psa/psk/export/operators.py:22-34 | a new list is empty with index 0 |
| MaterialOrder.MaterialNameList.PopulateMaterialNameList | io_scene_psk_psa/psk/export/operators.py:22-34 | the list is rebuilt from the materials sorted by the names it showed, each entry's index being its position, the active index untouched |
| MaterialOrder.MaterialNameList.MoveUp | io_scene_psk_psa/psk/export/operators.py:151-166 | the active entry moves one slot up and stays active, after which moving down is possible |
| MaterialOrder.MaterialNameList.MoveDown | io_scene_psk_psa/psk/export/operators.py:169-184 | the active entry moves one slot down and stays active, after which moving up is possible |
| MaterialOrder.RepopulateKeepsList | io_scene_psk_psa/psk/export/operators.py:22-34 | repopulating with the same materials (distinct names) keeps whatever order the user set up |
| PsaExportOperators.GetSequencesPropnamesFromSource | io_scene_psk_psa/psa/export/operators.py:23-34 | each of the four sources gives its list name and list name + '_index'; any other source fails the assertion |
| PsaExportOperators.PropnamesDistinct | io_scene_psk_psa/psa/export/operators.py:23-34 | different sources use different lists |
| PsaExportOperators.TruncMonotone | io_scene_psk_psa/psa/export/operators.py:243-251 | int() truncation never reverses an order |
| PsaExportOperators.TruncOfInt | io_scene_psk_psa/psa/export/operators.py:243-251 | int() of a whole number is that number |
| PsaExportOperators.ActionSequences | io_scene_psk_psa/psa/export/operators.py:239-253 | no sequence exactly for an empty or '#' name; a '!' action gives one-frame sequences at its truncated start; otherwise its truncated range forwards, and backwards for the second |
| PsaExportOperators.SortedPoseMarkers | io_scene_psk_psa/psa/export/operators.py:102 | the pose markers in frame order, a permutation, equal frames in their own order |
| PsaExportOperators.ActionItems | io_scene_psk_psa/psa/export/operators.py:92-99 | one list entry per sequence, with the action, name and range |
| PsaExportOperators.AddActionItems | io_scene_psk_psa/psa/export/operators.py:92-99 | the loop adding an unselected entry per sequence adds exactly ActionItems |
| PsaExportOperators.CollectPoseMarkerItems | io_scene_psk_psa/psa/export/operators.py:101-114 | the pose-marker loop adds the entries of every marker not skipped, in frame order |
| PsaExportOperators.PoseMarkerRanges | io_scene_psk_psa/psa/export/operators.py:256-272 | a marker's sequence starts at its frame; a '!' marker is one frame; otherwise it ends at the next marker's frame, or the action's truncated end for the last marker, and never runs backwards |
| PsaExportOperators.PoseMarkerItemsFrom | io_scene_psk_psa/psa/export/operators.py:103-114 | every pose-marker entry is an unselected pose-marker entry of a marker that is not skipped |
| PsaExportOperators.MarkerNames | io_scene_psk_psa/psa/export/operators.py:117 | the marker names, in order |
| PsaExportOperators.FirstMarkerIndex | io_scene_psk_psa/psa/export/operators.py:205-209 | the first marker with the name |
| PsaExportOperators.SortedTimelineMarkers | io_scene_psk_psa/psa/export/operators.py:201 | the timeline markers in frame order, a permutation |
| PsaExportOperators.SortedMarkerNames | io_scene_psk_psa/psa/export/operators.py:202-209 | the sorted copy holds every name, so index() finds it |
| PsaExportOperators.MinStart | io_scene_psk_psa/psa/export/operators.py:218 | min() of the strips' starts: one of them and at most each |
| PsaExportOperators.MaxEnd | io_scene_psk_psa/psa/export/operators.py:217 | max() of the strips' ends: one of them and at least each |
| PsaExportOperators.StripsMaxEndBounds | io_scene_psk_psa/psa/export/operators.py:228-229 | the running max over strips is at least the start value and every end, and is one of them |
| PsaExportOperators.UnmutedMaxEndIsMax | io_scene_psk_psa/psa/export/operators.py:224-229 | the last marker's end is the largest end of a strip on an unmuted track, or 0 |
| PsaExportOperators.MarkerFrameRangeBounds | io_scene_psk_psa/psa/export/operators.py:204-234 | with distinct marker names: a kept range never runs backwards, lies between the marker and the next one, is one frame when no strip overlaps, and the last marker ends at the last strip end |
| PsaExportOperators.RangeToNextBounds | io_scene_psk_psa/psa/export/operators.py:211-232 | the same for one marker frame and an optional next frame |
| PsaExportOperators.MarkerOnSortedFrame | io_scene_psk_psa/psa/export/operators.py:205-209 | with distinct names the marker found by name is the one found in the sorted copy |
| PsaExportOperators.MinStartWithin | io_scene_psk_psa/psa/export/operators.py:215-218 | the strips between two frames span a range that reaches both |
| PsaExportOperators.GetTimelineMarkerSequenceFrameRanges | io_scene_psk_psa/psa/export/operators.py:194-236 | a marker name gets a range exactly when its range does not run backwards, and the range is MarkerFrameRange |
| PsaExportOperators.MarkerRange | io_scene_psk_psa/psa/export/operators.py:205-229 | one iteration's range before the start > end test |
| PsaExportOperators.RangeToNextMarker | io_scene_psk_psa/psa/export/operators.py:212-221 | a marker followed by another: the overlapping strips' extent clamped to the two markers, or one frame |
| PsaExportOperators.LastStripEnd | io_scene_psk_psa/psa/export/operators.py:224-229 | the loop over unmuted tracks' strips computes the largest end from 0 |
| PsaExportOperators.MinOf | io_scene_psk_psa/psa/export/operators.py:158 | min() of a non-empty list is one of its items and at most each |
| PsaExportOperators.GetSequenceFps | io_scene_psk_psa/psa/export/operators.py:150-160 | scene fps, the custom value, or the smallest action fps; ValueError for no actions; an unknown source fails the assertion |
| PsaExportOperators.GetSequenceCompressionRatio | io_scene_psk_psa/psa/export/operators.py:163-175 | the smallest action ratio or the custom value; ValueError for no actions; any other source fails the assertion |
| PsaExportOperators.GetVisibleSequences | io_scene_psk_psa/psa/export/operators.py:275-280 | the items whose filter flag has bit 30 set, in list order |
| PsaExportOperators.VisibleSequencesMembers | io_scene_psk_psa/psa/export/operators.py:275-280 | the visible items are exactly the listed items every filter lets through |
| PsaExportOperators.SequenceList.constructor | io_scene_psk_psa/psa/export/operators.py:557-592 | the list holds the given items |
| PsaExportOperators.SequenceList.SelectAll | io_scene_psk_psa/psa/export/operators.py:586-591 | every visible item becomes selected, hidden ones keep their state; afterwards select-all is no longer offered |
| PsaExportOperators.SequenceList.DeselectAll | io_scene_psk_psa/psa/export/operators.py:621-626 | every visible item becomes unselected, hidden ones keep their state |
| PsaExportOperators.FirstQuote | io_scene_psk_psa/psa/export/operators.py:55 | the first '"' of a string, or its length |
| PsaExportOperators.BoneNameOfDataPathSound | io_scene_psk_psa/psa/export/operators.py:55-58 | a matched bone name is non-empty, free of '"', and the path starts pose.bones["name"] |
| PsaExportOperators.BoneNameOfDataPathComplete | io_scene_psk_psa/psa/export/operators.py:55-58 | every path starting pose.bones["name"] matches with that name |
| PsaExportOperators.FirstQuoteOf | io_scene_psk_psa/psa/export/operators.py:55 | the first quote is at k when k holds the first '"' |
| PsaExportOperators.IsActionForObjectLegacy | io_scene_psk_psa/psa/export/operators.py:46-61 | true exactly when some f-curve's path names a bone of the armature |
| PsaExportOperators.IsActionForObject | io_scene_psk_psa/psa/export/operators.py:37-67 | false without an action with f-curves or without an armature with animation data; before 4.4 the legacy test; from 4.4 the slot-user test |
| PsaExportProperties.FirstLine | io_scene_psk_psa/psa/export/properties.py:60-61 | the part of a name that '.' can match: up to the first newline |
| PsaExportProperties.FirstLineOfLine | io_scene_psk_psa/psa/export/properties.py:60-61 | a name without newlines is matched whole |
| PsaExportProperties.SlashSearch | io_scene_psk_psa/psa/export/properties.py:60-61 | finds the last '/' at position 1..q, as the greedy first group does, or reports there is none |
| PsaExportProperties.SplitReversedNameIsMatch | io_scene_psk_psa/psa/export/properties.py:59-68 | the pattern (.+)/(.+) matches exactly when a '/' has text on both sides on the first line, and then splits at the last such '/' |
| PsaExportProperties.SplitJoinedName | io_scene_psk_psa/psa/export/properties.py:59-68 | a name forward/backward (no newline, no '/' in backward) splits into forward and backward |
| PsaExportProperties.JoinedNameParts | io_scene_psk_psa/psa/export/properties.py:59-68 | the joined name has its '/' right after forward and none after it |
| PsaExportProperties.SequencesFromNameShape | io_scene_psk_psa/psa/export/properties.py:59-68 | one sequence with the name and range when no split is possible; otherwise the forward part over the range and the backward part over the reversed range |
| PsaExportProperties.NlaTrackSearchItems | io_scene_psk_psa/psa/export/properties.py:96-101 | one item per track, '<index> - <name>' |
| PsaExportProperties.LeadingDigits | io_scene_psk_psa/psa/export/properties.py:73 | the length of the leading run of digits |
| PsaExportProperties.DigitRunWithinLeading | io_scene_psk_psa/psa/export/properties.py:73 | any run of digits at the start lies within the leading run |
| PsaExportProperties.GroupSearch | io_scene_psk_psa/psa/export/properties.py:73 | the longest digit group that leaves a non-empty tail, as the greedy \d+ backtracks |
| PsaExportProperties.ParseNlaTrackIndexIsMatch | io_scene_psk_psa/psa/export/properties.py:73-74 | -1 exactly when ^(\d+).+$ does not match, otherwise the value of the longest matching digit group |
| PsaExportProperties.NlaTrackSearchRoundTrip | io_scene_psk_psa/psa/export/properties.py:73-101 | parsing a search item '<index> - <name>' gives back the index |
| PsaExportProperties.NoLeadingDigit | io_scene_psk_psa/psa/export/properties.py:73-74 | a track string not starting with a digit gives -1 |
| PsaExportProperties.StripItems | io_scene_psk_psa/psa/export/properties.py:81-86 | one list entry per sequence of the strip's name and range |
| PsaExportProperties.TrackItemsStep | io_scene_psk_psa/psa/export/properties.py:80-86 | the entries of one more strip are appended after the previous ones |
| PsaExportProperties.StripItemsShape | io_scene_psk_psa/psa/export/properties.py:81-86 | a strip gives one or two entries, each carrying the strip's action and a name and range from it |
| PsaExportProperties.TrackItemsShape | io_scene_psk_psa/psa/export/properties.py:80-86 | a track gives between one and two entries per strip, each from one of its strips |
| PsaExportProperties.NlaStripSettings.constructor | io_scene_psk_psa/psa/export/properties.py:71-74 | no track chosen: empty name, index -1, empty strip list |
| PsaExportProperties.NlaStripSettings.NlaTrackUpdate | io_scene_psk_psa/psa/export/properties.py:71-86 | the strip list is cleared, the index is parsed from the track string; an index past the tracks raises IndexError; otherwise the list holds the track's strip entries |
| PsaExportProperties.StripListItems | io_scene_psk_psa/psa/export/properties.py:80-86 | the loop over strips adds exactly the track's entries |
| PsaExportProperties.StripEntries | io_scene_psk_psa/psa/export/properties.py:81-86 | the inner loop adds exactly the strip's entries |
| PsaExportProperties.ClearFlag | io_scene_psk_psa/psa/export/properties.py:240 | clearing bit 30 hides an item |
| PsaExportProperties.FlagBit | io_scene_psk_psa/psa/export/properties.py:233-234 | bit 30 of a flag says whether the item is shown |
| PsaExportProperties.FlipFlag | io_scene_psk_psa/psa/export/properties.py:245 | XOR with bit 30 flips shown and hidden |
| PsaExportProperties.FilterSequences | io_scene_psk_psa/psa/export/properties.py:232-262 | one flag per item, bit 30 set exactly when the name, invert, asset, pose-marker and reversed filters let it through |
| PsaExportProperties.HideWhere | io_scene_psk_psa/psa/export/properties.py:247-260 | each later pass clears bit 30 of the items its condition hides |
| PsaExportProperties.FilterMeaning | io_scene_psk_psa/psa/export/properties.py:232-262 | with no name filter and every other filter off all items show and invert has no effect; with a name filter and the others off, invert flips every item |
| PsaImportProperties.FilterSequences | io_scene_psk_psa/psa/import_/properties.py:135-166 | one flag per item, bit 30 set exactly when the name (glob or regex), selection and invert filters let it through |
| PsaImportProperties.NamePass | io_scene_psk_psa/psa/import_/properties.py:139-154 | the name pass hides the items the glob or a valid regex rejects; an invalid regex changes nothing |
| PsaImportProperties.SelectionPass | io_scene_psk_psa/psa/import_/properties.py:156-159 | the selection pass hides unselected items |
| PsaImportProperties.InvertPass | io_scene_psk_psa/psa/import_/properties.py:161-164 | the invert pass flips every flag |
| PsaImportProperties.DoubleStarMatchesAll | io_scene_psk_psa/psa/import_/properties.py:139-153 | an empty filter name (which is not None) becomes '**' and matches every name |
| PsaImportProperties.NoNameFilter | io_scene_psk_psa/psa/import_/properties.py:139-164 | with no effective name filter only selection and invert decide |
| PsaImportProperties.InvertFlipsAll | io_scene_psk_psa/psa/import_/properties.py:161-164 | inverting shows exactly the items otherwise hidden |
| PsaImportProperties.GetVisibleSequences | io_scene_psk_psa/psa/import_/properties.py:169-175 | the items whose flag has bit 30 set, in list order |
| PsaImportProperties.VisibleSequencesMembers | io_scene_psk_psa/psa/import_/properties.py:169-175 | the visible items are exactly the listed items the filters let through |
| PsaImporter.BoneIndexFor | io_scene_psk_psa/psa/importer.py:81-95 | the first armature bone whose name matches (exactly, or lower-cased in CASE_INSENSITIVE mode), or None when none matches |
| PsaImporter.GetArmatureBoneIndexForPsaBone | io_scene_psk_psa/psa/importer.py:81-95 | the loop that returns at the first match computes BoneIndexFor |
| PsaImporter.FirstMatchIsBoneIndex | io_scene_psk_psa/psa/importer.py:81-95 | a matching bone with no earlier match is the one found |
| PsaImporter.NoMatchIsNone | io_scene_psk_psa/psa/importer.py:81-95 | with no matching bone nothing is found |
| PsaImporter.CaseInsensitiveFindsExact | io_scene_psk_psa/psa/importer.py:81-95 | case-insensitive mode finds a bone whenever exact mode does, at the same or an earlier position |
| PsaImporter.Finds | io_scene_psk_psa/psa/importer.py:159-161 | the armature bone found for each PSA bone, in order |
| PsaImporter.FoundSnoc | io_scene_psk_psa/psa/importer.py:164-166 | after one more PSA bone an armature bone is claimed exactly when it was before or the new bone found it |
| PsaImporter.ClaimsOfPrefix | io_scene_psk_psa/psa/importer.py:164-166 | whether a PSA bone claims its armature bone depends only on the bones before it |
| PsaImporter.MappingBackward | io_scene_psk_psa/psa/importer.py:159-172 | armature_to_psa holds exactly the found armature bones, each mapped to the first PSA bone that found it |
| PsaImporter.MappingForward | io_scene_psk_psa/psa/importer.py:159-172 | psa_to_armature holds exactly the PSA bones that claimed their find, mapped to it |
| PsaImporter.MappingIsInjective | io_scene_psk_psa/psa/importer.py:159-172 | the two maps are inverse bijections |
| PsaImporter.DuplicatesAreLateFinds | io_scene_psk_psa/psa/importer.py:167-169 | every duplicate mapping is a PSA bone whose armature bone an earlier PSA bone claimed |
| PsaImporter.LateFindsAreDuplicates | io_scene_psk_psa/psa/importer.py:167-169 | every such PSA bone is recorded as a duplicate mapping |
| PsaImporter.LateFindIsRecorded | io_scene_psk_psa/psa/importer.py:167-169 | a late find adds exactly one duplicate mapping, for that bone |
| PsaImporter.DuplicatesInOrder | io_scene_psk_psa/psa/importer.py:167-169 | duplicate mappings are recorded in PSA bone order |
| PsaImporter.MappingNames | io_scene_psk_psa/psa/importer.py:170-172 | the name used for each PSA bone is its armature bone's name when found, its own name otherwise |
| PsaImporter.MissingBonesAreUnfound | io_scene_psk_psa/psa/importer.py:183 | the missing bone names are exactly the names of the PSA bones that found no armature bone |
| PsaImporter.UnfoundNames | io_scene_psk_psa/psa/importer.py:183 | a name used for a PSA bone that no armature bone has is the name of a PSA bone with no find, and every such name is one |
| PsaImporter.MapBones | io_scene_psk_psa/psa/importer.py:153-189 | the mapping loop builds Mapping of Finds; one warning per duplicate mapping with its three indices, then one missing-bones warning when some name is missing |
| PsaImporter.MissingParentPsaBones | io_scene_psk_psa/psa/importer.py:209-217 | the mapped PSA bones whose armature parent's name is not among the used names, in order, and all of them |
| PsaImporter.BonesWithMissingParents | io_scene_psk_psa/psa/importer.py:207-217 | the loop collects the armature bones of exactly those PSA bones, in order |
| PsaImporter.MissingParentArmatureBones | io_scene_psk_psa/psa/importer.py:207-217 | the collected list holds an armature bone exactly when some PSA bone mapped to it has a parent the PSA lacks |
| PsaImporter.MissingParentsWarning | io_scene_psk_psa/psa/importer.py:231-235 | a warning exactly when some bone has a missing parent, with their count and names |
| PsaImporter.ParentMissingMeansUnfound | io_scene_psk_psa/psa/importer.py:211-217 | with distinct armature names, a bone's parent is missing exactly when it has a parent that no PSA bone found |
| PsaImporter.UsedNameIffFound | io_scene_psk_psa/psa/importer.py:213 | with distinct armature names, an armature bone's name is used exactly when some PSA bone found it |
| PsaImporter.UsedNameFound | io_scene_psk_psa/psa/importer.py:170-172 | with distinct armature names, a used name equal to an armature bone's name means that bone was found |
| PsaImporter.FcurvesCreated | io_scene_psk_psa/psa/importer.py:278-288 | four rotation curves exist unless the rotation track is removed, three location curves unless the location track is removed |
| PsaImporter.TrackFlagsMeaning | io_scene_psk_psa/psa/importer.py:246-249 | a bone without configured flags gets all seven curves; 'all' removes both tracks, 'rot' rotation, 'trans' location |
| PsaImporter.Ceil | io_scene_psk_psa/psa/importer.py:112-115 | the smallest integer at least x |
| PsaImporter.StepBelowEnd | io_scene_psk_psa/psa/importer.py:113-115 | a step k * frame_step is below the end exactly when k is below end / frame_step |
| PsaImporter.GetSampleFrameTimes | io_scene_psk_psa/psa/importer.py:108-116 | frame_step <= 0 fails the assertion; otherwise the loop yields SampleFrameTimes |
| PsaImporter.SampleFrameTimesSchedule | io_scene_psk_psa/psa/importer.py:108-116 | the times start at 0, end at source_frame_count - 1, increase by at most frame_step and stay within the source frames |
| PsaImporter.ResampledFrameCount | io_scene_psk_psa/psa/importer.py:118-122 | step 1 keeps the frame count; any other step gives one frame per sample time |
| PsaImporter.FcurveData | io_scene_psk_psa/psa/importer.py:314-324 | alternating frame numbers and values |
| PsaImporter.ResampleReadsExistingFrames | io_scene_psk_psa/psa/importer.py:126-137 | every sample time reads only source frames that exist |
| PsaImporter.LerpBetween | io_scene_psk_psa/psa/importer.py:141 | linear interpolation with a factor in [0, 1] stays between the two values |
| PsaImporter.ScaledWithin | io_scene_psk_psa/psa/importer.py:138-141 | scaling a difference by a factor in [0, 1] keeps it between 0 and the difference |
| PsaImporter.ResampleChannel | io_scene_psk_psa/psa/importer.py:98-142 | a step of 1 returns the frames unchanged and a step that is not positive fails the assertion; with no frames the schedule [-1] reads frame -1 and raises IndexError; otherwise one value per sample time, copying a frame at a whole time and interpolating the location between the neighbouring frames otherwise |
| PsaImporter.EmptySchedule | io_scene_psk_psa/psa/importer.py:108-116 | with no frames the sample times are the single time -1 |
| PsaImporter.ResampleKeepsEnds | io_scene_psk_psa/psa/importer.py:108-142 | resampling keeps the first and the last frame |
| PsaImporter.TargetFps | io_scene_psk_psa/psa/importer.py:257-265 | the custom, scene or sequence fps; any other source fails the assertion |
| PsaImporter.KeyframeCount | io_scene_psk_psa/psa/importer.py:309-316 | a zero target fps divides by zero, a step that is not positive fails the assertion, and a step other than 1 on a sequence without frames raises IndexError; the same fps keeps the frame count, a non-empty sequence gets at least one keyframe, and a count is always the resampled frame count |
| PsaImporter.StashTracks | io_scene_psk_psa/psa/importer.py:346-354 | one muted track per imported action, named after it, with one strip at frame 0 |
| PsaImporter.ActionNames | io_scene_psk_psa/psa/importer.py:241-341 | the names of the imported actions |
| PsaImporter.ActionNamesSnoc | io_scene_psk_psa/psa/importer.py:341 | one more action adds its name |
| PsaImporter.ImportAllNames | io_scene_psk_psa/psa/importer.py:241-244 | one action per sequence, named prefix + sequence name |
| PsaImporter.ImportAllPrefix | io_scene_psk_psa/psa/importer.py:241-341 | the actions of a sequence list are those of its prefix plus the import of the last sequence, which sees the earlier actions' names |
| PsaImporter.ActionNamesOfImport | io_scene_psk_psa/psa/importer.py:241-341 | the imported actions' names are the prefixed names of the sequences |
| PsaImporter.ImportAllReuse | io_scene_psk_psa/psa/importer.py:251-254 | an action is reused exactly when overwriting is on and its name already exists or an earlier sequence created it |
| PsaImporter.ImportAllBadFpsSource | io_scene_psk_psa/psa/importer.py:264-265 | an unknown fps source fails the assertion |
| PsaImporter.ImportAllWithoutKeyframes | io_scene_psk_psa/psa/importer.py:267 | without writing keyframes the import succeeds and writes no keyframes |
| PsaImporter.ImportSequences | io_scene_psk_psa/psa/importer.py:147-356 | a sequence name the PSA lacks raises KeyError; otherwise the actions of ImportAll, with stash tracks when stashing |
| PsaImporter.LookupSequences | io_scene_psk_psa/psa/importer.py:149 | the sequences named, in order; KeyError when a name is not a sequence of the PSA |
| PsaImporter.ImportActions | io_scene_psk_psa/psa/importer.py:240-341 | the loop over the sequences returns exactly ImportAll: every action in order, or the first pass's error |
| PsaImporter.ImportOneReuse | io_scene_psk_psa/psa/importer.py:243-254 | a pass names its action prefix + sequence name and reuses it exactly when overwriting is on and the name exists |
| PsaImporter.ImportAllStopsAtFailure | io_scene_psk_psa/psa/importer.py:241-341 | an error in a prefix is the error of the whole import |
| PsaReader.Cue4ParseFixed | io_scene_psk_psa/psa/reader.py:10-24 | the fix keeps the number of sequences |
| PsaReader.TryFixCue4ParseIssue103 | io_scene_psk_psa/psa/reader.py:10-24 | reports whether the first sequence's start index equals its frame count, and rewrites the array in place to Cue4ParseFixed |
| PsaReader.FixedPrefix | io_scene_psk_psa/psa/reader.py:19-22 | rewriting the first n sequences keeps the number of sequences |
| PsaReader.FixedPrefixAt | io_scene_psk_psa/psa/reader.py:19-22 | after n steps the first n sequences start at the running frame-count sum and the rest are untouched |
| PsaReader.Cue4ParseFixedAt | io_scene_psk_psa/psa/reader.py:16-22 | with the issue present, sequence i starts at the sum of the earlier frame counts |
| PsaReader.Cue4ParseFixOnlyStarts | io_scene_psk_psa/psa/reader.py:16-24 | without the issue nothing changes, and the fix only ever changes start indices |
| PsaReader.Cue4ParseFixRunningSum | io_scene_psk_psa/psa/reader.py:19-22 | the fixed sequences start at 0 and each starts where the previous one ends, in 32-bit arithmetic |
| PsaReader.RunningSumAt | io_scene_psk_psa/psa/reader.py:19-22 | sequence i + 1 starts where sequence i ends |
| PsaReader.WrapAdd | io_scene_psk_psa/psa/reader.py:22 | storing into a c_int32 before or after adding gives the same value |
| PsaReader.Cue4ParseFixIdempotent | io_scene_psk_psa/psa/reader.py:10-24 | applying the fix twice is applying it once |
| PsaReader.FrameCountSumsAgree | io_scene_psk_psa/psa/reader.py:19-22 | running sums depend only on the frame counts |
| PsaReader.Cue4ParseFixOfRunningSums | io_scene_psk_psa/psa/reader.py:10-24 | sequences already laid out back to back are left unchanged |
| PsaReader.PsaKindOf | io_scene_psk_psa/psa/reader.py:108-124 | a section name is unrecognized exactly when it is none of ANIMHEAD, BONENAMES, ANIMINFO and ANIMKEYS |
| PsaReader.NamedEntries | io_scene_psk_psa/psa/reader.py:117-118 | each sequence keyed by its name |
| PsaReader.ReadRecords | io_scene_psk_psa/psa/reader.py:95-101 | a successful read advances within the file and gives records of the class size |
| PsaReader.Skip | io_scene_psk_psa/psa/reader.py:121-124 | a relative seek moves by n, and an OSError when it would go before the start |
| PsaReader.ReadChunkPosition | io_scene_psk_psa/psa/reader.py:105-124 | where a chunk ends, and whether it fails, does not depend on what was read before |
| PsaReader.ReadBodyPosition | io_scene_psk_psa/psa/reader.py:108-124 | the same for a chunk's body |
| PsaReader.ReadFromRevisit | io_scene_psk_psa/psa/reader.py:105-124 | a chunk that seeks back to its own start makes the loop run forever |
| PsaReader.ReadPsaHangs | io_scene_psk_psa/psa/reader.py:123-124 | an unrecognized first section whose data_size * data_count is -32 makes the reader loop forever |
| PsaReader.ReadFromStep | io_scene_psk_psa/psa/reader.py:105-124 | the loop reads one chunk and goes on from where it ends |
| PsaReader.ReadPsaShort | io_scene_psk_psa/psa/reader.py:105-107 | an empty file gives an empty PSA; a shorter file than one header raises ValueError |
| PsaReader.PsaReader.constructor | io_scene_psk_psa/psa/reader.py:34-37 | the reader holds the file, the keys offset and the PSA read |
| PsaReader.PsaReader.ReadSequenceKeys | io_scene_psk_psa/psa/reader.py:71-92 | the keys of the named sequence as SequenceKeys reads them |
| PsaReader.PsaReader.ReadSequenceDataMatrix | io_scene_psk_psa/psa/reader.py:53-69 | an F x B x 7 matrix whose cell (f, b) holds the data of key f * B + b; a missing sequence raises KeyError and a negative frame count ValueError |
| PsaReader.FillFrame | io_scene_psk_psa/psa/reader.py:66-68 | one frame of the matrix is filled and nothing else changes |
| PsaReader.FillCell | io_scene_psk_psa/psa/reader.py:68 | one cell's seven values are written and nothing else changes |
| PsaReader.KeyIndexInRange | io_scene_psk_psa/psa/reader.py:65-68 | every cell's key index is in range |
| PsaReader.SequenceKeys | io_scene_psk_psa/psa/reader.py:71-92 | an unknown name raises KeyError; otherwise frame_count * bone_count keys |
| PsaReader.Open | io_scene_psk_psa/psa/reader.py:34-37 | opening reads the file as ReadPsa does: the same error, the same contents and keys offset, or no answer when ReadPsa runs forever |
| PsaReader.ReadChunkInto | io_scene_psk_psa/psa/reader.py:105-124 | one pass of the loop updates the PSA as ReadChunk says, or fails with its error |
| PsaReader.ReadBodyInto | io_scene_psk_psa/psa/reader.py:108-124 | the dispatch on the section name updates the PSA as ReadBody says |
| PsaReader.ReadBonesInto | io_scene_psk_psa/psa/reader.py:110-111 | the BONENAMES branch appends the bones as ReadBones says |
| PsaReader.ReadSequencesInto | io_scene_psk_psa/psa/reader.py:112-118 | the ANIMINFO branch adds the fixed sequences as ReadSequences says |
| PsaReader.ReadRecordsAt | io_scene_psk_psa/psa/reader.py:95-101 | _read_types reads the records of ReadRecords |
| PsaReader.AddSequences | io_scene_psk_psa/psa/reader.py:117-118 | assigns each sequence under its name, in order |
| PsaRoundTrip.HeadAt | io_scene_psk_psa/psa/reader.py:108-109 | an ANIMHEAD header is skipped over |
| PsaRoundTrip.BonesAt | io_scene_psk_psa/psa/reader.py:110-111 | a BONENAMES chunk appends its decoded bones |
| PsaRoundTrip.InfoAt | io_scene_psk_psa/psa/reader.py:112-118 | an ANIMINFO chunk files its decoded, fixed sequences by name |
| PsaRoundTrip.KeysAt | io_scene_psk_psa/psa/reader.py:119-122 | an ANIMKEYS chunk records where its keys start and is skipped |
| PsaRoundTrip.FromKeys | io_scene_psk_psa/psa/reader.py:105-122 | a final ANIMKEYS chunk ends the read with the keys offset set |
| PsaRoundTrip.FromInfo | io_scene_psk_psa/psa/reader.py:105-122 | ANIMINFO then ANIMKEYS read as the sequences and the keys offset |
| PsaRoundTrip.FromBones | io_scene_psk_psa/psa/reader.py:105-122 | BONENAMES, ANIMINFO and ANIMKEYS read as the bones, sequences and keys offset |
| PsaRoundTrip.BonesDecoded | io_scene_psk_psa/psa/writer.py:23 | written bone records decode to the bones |
| PsaRoundTrip.SequencesDecoded | io_scene_psk_psa/psa/writer.py:24 | written sequence records decode to the sequences |
| PsaRoundTrip.ReadLaidOut | io_scene_psk_psa/psa/reader.py:103-126 | a file laid out as the four chunks reads back as their bones and fixed sequences with the keys offset after the last header |
| PsaRoundTrip.FourLaid | io_scene_psk_psa/psa/writer.py:20-25 | the four written chunks, one after another, form that layout |
| PsaRoundTrip.BonesChunkOut | io_scene_psk_psa/psa/writer.py:23 | the BONENAMES chunk holds the encoded bones |
| PsaRoundTrip.InfoChunkOut | io_scene_psk_psa/psa/writer.py:24 | the ANIMINFO chunk holds the encoded sequences in dictionary order |
| PsaRoundTrip.KeysChunkOut | io_scene_psk_psa/psa/writer.py:25 | the ANIMKEYS chunk holds the encoded keys |
| PsaRoundTrip.WrittenLaidOut | io_scene_psk_psa/psa/writer.py:20-25 | write_psa's output has that layout |
| PsaRoundTrip.PsaRoundTrip | io_scene_psk_psa/psa/writer.py:20-25 | reading what write_psa wrote gives the bones, the sequences after the CUE4Parse fix filed by name, and the keys offset |
| PsaRoundTrip.ReadWritten | io_scene_psk_psa/psa/reader.py:103-126 | the same for any file with the written layout |
| PsaRoundTrip.RefiledByName | io_scene_psk_psa/psa/reader.py:117-118 | sequences filed under their own names, without the CUE4Parse issue, are filed back into the same dictionary |
| PsaRoundTrip.PsaSequencesRoundTrip | io_scene_psk_psa/psa/reader.py:103-126 | for such sequences the read gives back the written bones and sequence dictionary exactly |
| PsaRoundTrip.KeysReadAt | io_scene_psk_psa/psa/reader.py:85-92 | stored keys read back as the keys |
| PsaRoundTrip.EncodedAt | io_scene_psk_psa/psa/reader.py:85-92 | stored fixed-size records read back as the records |
| PsaRoundTrip.KeysDecoded | io_scene_psk_psa/psa/reader.py:89 | key records decode to the keys |
| PsaRoundTrip.StoredSlice | io_scene_psk_psa/psa/reader.py:83-85 | a run of keys lies at offset + lo * key size |
| PsaRoundTrip.SequenceKeysAt | io_scene_psk_psa/psa/reader.py:79-92 | the keys stored at a sequence's offset are what read_sequence_keys returns |
| PsaRoundTrip.SequenceKeysOfStored | io_scene_psk_psa/psa/reader.py:79-92 | read_sequence_keys returns the sequence's frames of the stored keys |
| PsaRoundTrip.SequenceFrames | io_scene_psk_psa/psa/reader.py:82-83 | frame_count * bone_count keys, starting at frame_start_index * bone_count |
| PsaRoundTrip.KeysStored | io_scene_psk_psa/psa/writer.py:25 | the written key chunk holds the keys right after its header |
| PsaRoundTrip.KeysOfLaidOut | io_scene_psk_psa/psa/reader.py:71-92 | in a written file each sequence's keys are read from its own frames |
| PsaRoundTrip.PsaKeysRoundTrip | io_scene_psk_psa/psa/reader.py:71-92 | after writing and reading, read_sequence_keys of a sequence gives exactly the keys of its frames |
| PsaWriter.WritePsa | io_scene_psk_psa/psa/writer.py:20-25 | the file holds the ANIMHEAD, BONENAMES, ANIMINFO and ANIMKEYS chunks of PsaFile |
| PsaWriter.WriteChunk | io_scene_psk_psa/psa/writer.py:8-17 | write_section appends the chunk's bytes |
| PsaWriter.HeadChunkBytes | io_scene_psk_psa/psa/writer.py:22 | the ANIMHEAD chunk is a bare header with zero size and count |
| PsaWriter.RecordChunk | io_scene_psk_psa/psa/writer.py:8-17 | a chunk with records is its header (name, record size and count) followed by the records |
| PskImporter.PyIndex | io_scene_psk_psa/psk/importer.py:98 | Python list indexing: an index in [-n, n) selects i or i + n, anything else raises IndexError |
| PskImporter.ClampedParent | io_scene_psk_psa/psk/importer.py:87 | max(0, parent_index) |
| PskImporter.ClampedBones | io_scene_psk_psa/psk/importer.py:85-87 | every bone's parent index is clamped at 0 and nothing else changes |
| PskImporter.ResolveBoneParents | io_scene_psk_psa/psk/importer.py:85-112 | the three loops clamp each bone's parent index in place, change nothing else, and give the parents of BoneParents or its IndexError |
| PskImporter.BoneParents | io_scene_psk_psa/psk/importer.py:95-112 | IndexError exactly when some bone other than a parentless first bone names a parent after itself, whose edit bone does not exist yet when it is parented |
| PskImporter.OutOfRangeRaises | io_scene_psk_psa/psk/importer.py:98 | a parent index past the last bone is an IndexError |
| PskImporter.ForwardParentRaises | io_scene_psk_psa/psk/importer.py:107-112 | bones with parent indices [1, 0] raise IndexError: bone 0 names an edit bone not yet created |
| PskImporter.BoneParentsMeaning | io_scene_psk_psa/psk/importer.py:90-112 | one entry per bone, each parent the bone itself or an earlier bone; the first bone is a root exactly when its parent index is at most 0; every other bone's parent is its clamped index |
| PskImporter.CornerPoint | io_scene_psk_psa/psk/importer.py:166-170 | the point of a wedge, when the wedge exists and its point index selects a vertex |
| PskImporter.FaceCorners | io_scene_psk_psa/psk/importer.py:166-170 | the face's three points, in reversed wedge order, or IndexError when one does not resolve |
| PskImporter.AllCorners | io_scene_psk_psa/psk/importer.py:165-170 | the corner points of every face, or IndexError when some face's do not resolve |
| PskImporter.AllCornersSnoc | io_scene_psk_psa/psk/importer.py:165-170 | the faces are resolved in order and one failure fails them all |
| PskImporter.KeptFaces | io_scene_psk_psa/psk/importer.py:165-178 | one outcome per face |
| PskImporter.KeptFacesSnoc | io_scene_psk_psa/psk/importer.py:171-178 | a face is kept unless bm.faces.new rejects it against the faces kept before it |
| PskImporter.InvalidIndicesSnoc | io_scene_psk_psa/psk/importer.py:178 | a rejected face adds its index to invalid_face_indices |
| PskImporter.KeptFacesPrefix | io_scene_psk_psa/psk/importer.py:165-178 | the outcome of a face depends only on the faces before it |
| PskImporter.KeptFacesMeaning | io_scene_psk_psa/psk/importer.py:171-178 | face i is rejected exactly when it repeats a point or its point set was kept before |
| PskImporter.KeptFacesUnique | io_scene_psk_psa/psk/importer.py:171-178 | every kept face has three distinct points, and no two kept faces share a point set |
| PskImporter.ImportFaces | io_scene_psk_psa/psk/importer.py:163-182 | the face loop fails with IndexError exactly when some corner does not resolve, and otherwise keeps KeptFaces and records the rejected indices |
| PskImporter.KeepFace | io_scene_psk_psa/psk/importer.py:171-178 | one face: its index joins the invalid ones exactly when the face is rejected (degenerate or a duplicate of a kept face), otherwise it is kept |
| PskImporter.InvalidFacesWarning | io_scene_psk_psa/psk/importer.py:181-182 | a warning exactly when some face was discarded |
| PskImporter.CornerWedgesOfFace | io_scene_psk_psa/psk/importer.py:192 | the face's wedges in reversed order |
| PskImporter.CornerWedgesLayout | io_scene_psk_psa/psk/importer.py:187-194 | the k-th kept face's corners occupy slots 3k to 3k + 2 |
| PskImporter.CornerWedgesLength | io_scene_psk_psa/psk/importer.py:187-194 | three corners per kept face |
| PskImporter.CollectCornerWedges | io_scene_psk_psa/psk/importer.py:189-194 | the loop over kept faces collects exactly CornerWedges |
| PskImporter.UvLayer | io_scene_psk_psa/psk/importer.py:187-196 | each corner gets its wedge's (u, 1 - v), or IndexError for a missing wedge |
| PskImporter.FlippedUvInvolution | io_scene_psk_psa/psk/importer.py:193 | flipping v twice restores it |
| PskImporter.ExtraUvChannelCount | io_scene_psk_psa/psk/importer.py:200 | int(len(extra_uvs) / len(wedges)): the whole number of channels, ZeroDivisionError without wedges |
| PskImporter.ExtraUvLayersCopyPrimary | io_scene_psk_psa/psk/importer.py:199-213 | as written every extra UV layer is a copy of the primary layer, whatever the extra UVs hold |
| PskImporter.ExtraUvLayers | io_scene_psk_psa/psk/importer.py:199-213 | intended: layer i is named EXTRAUV<i> and each corner reads extra UV i * len(wedges) + wedge, flipped |
| PskImporter.ExtraUvLayer | io_scene_psk_psa/psk/importer.py:203-213 | one intended layer reads its channel's block of extra UVs |
| PskImporter.ExtraUvOffsetWithin | io_scene_psk_psa/psk/importer.py:211 | channel i's block lies within the extra UVs |
| PskImporter.ExtraUvsIgnoredExample | io_scene_psk_psa/psk/importer.py:208-209 | one wedge with UV (0, 0) and extra UV (0.5, 0.5): the layer as written holds (0, 1), the intended one (0.5, 0.5) |
| PskImporter.CornerColors | io_scene_psk_psa/psk/importer.py:230-235 | each corner gets its wedge's color, negative indices counting from the end, or IndexError |
| PskImporter.GroupsSnoc | io_scene_psk_psa/psk/importer.py:261-262 | each weight adds its (point, weight) to its bone's group |
| PskImporter.UnusedSlotIsEmpty | io_scene_psk_psa/psk/importer.py:256-262 | a bone no weight names gets no additions |
| PskImporter.ImportVertexGroups | io_scene_psk_psa/psk/importer.py:256-262 | IndexError exactly when some weight names a bone past the bones; otherwise the groups of Groups |
| PskImporter.SlotsMeaning | io_scene_psk_psa/psk/importer.py:256-259 | a group is created exactly for the bones some weight names |
| PskImporter.GroupAddsMembers | io_scene_psk_psa/psk/importer.py:261-262 | a group's additions are exactly the weights naming its bone |
| PskImporter.RecordsBeforeMonotone | io_scene_psk_psa/psk/importer.py:271-275 | later shape keys consume later morph records |
| PskImporter.Negated | io_scene_psk_psa/psk/importer.py:277 | -y flips the sign bit of the float and keeps the rest |
| PskImporter.ImportShapeKeys | io_scene_psk_psa/psk/importer.py:265-277 | MORPH_BASE first when there are morphs, then one shape key per morph info moving its points by its records with y negated; the first failing record (StopIteration or IndexError) is the error |
| PskImporter.ShapeKeysConsumeInOrder | io_scene_psk_psa/psk/importer.py:271-275 | each shape key consumes the records right after the previous one's |
| PskImporter.Root | io_scene_psk_psa/psk/importer.py:287-288 | the armature is the root when imported, else the mesh; importing neither fails |
| PskImporter.RootScale | io_scene_psk_psa/psk/importer.py:288 | the root is scaled uniformly by the import scale |
| PskReader.DispatchFirst | io_scene_psk_psa/psk/reader.py:25-53 | the if/elif chain takes the first branch whose test matches, and falls through exactly when none does |
| PskReader.DispatchAt | io_scene_psk_psa/psk/reader.py:25-53 | a branch that matches with no earlier match is taken |
| PskReader.DispatchRecognized | io_scene_psk_psa/psk/reader.py:25-53 | a branch is taken exactly for the recognized names, and the 16-bit wedge branch exactly for VTXW0000 |
| PskReader.SectionKindOfErrors | io_scene_psk_psa/psk/reader.py:29-53 | RuntimeError exactly for an unrecognized name or a VTXW0000 section whose record size is not 16 |
| PskReader.Wedge32NeverRead | io_scene_psk_psa/psk/reader.py:30-33 | Wedge16 and Wedge32 are both 16 bytes, so the Wedge32 branch is never taken |
| PskReader.UnknownSectionError | io_scene_psk_psa/psk/reader.py:52-53 | an unrecognized section raises RuntimeError as intended; as written the message's format spec raises ValueError |
| PskReader.UnknownSectionExample | io_scene_psk_psa/psk/reader.py:52-53 | section name 'X' shows the ValueError as written and the RuntimeError intended |
| PskReader.KindOfWrittenNames | io_scene_psk_psa/psk/reader.py:25-51 | every name the writer emits, with its record size, is read into the right list |
| PskReader.DispatchOfActrhead | io_scene_psk_psa/psk/reader.py:25-26 | ACTRHEAD is skipped |
| PskReader.DispatchOfPnts | io_scene_psk_psa/psk/reader.py:27-28 | PNTS0000 reads points |
| PskReader.DispatchOfVtxw | io_scene_psk_psa/psk/reader.py:29-31 | VTXW0000 reads 16-bit wedges |
| PskReader.DispatchOfFace | io_scene_psk_psa/psk/reader.py:36-37 | FACE0000 reads faces |
| PskReader.DispatchOfMatt | io_scene_psk_psa/psk/reader.py:38-39 | MATT0000 reads materials |
| PskReader.DispatchOfRefskelt | io_scene_psk_psa/psk/reader.py:40-41 | REFSKELT reads bones |
| PskReader.DispatchOfRawweights | io_scene_psk_psa/psk/reader.py:42-43 | RAWWEIGHTS reads weights |
| PskReader.DispatchOfVtxnorms | io_scene_psk_psa/psk/reader.py:50-51 | VTXNORMS reads vertex normals |
| PskReader.AddRecordsGrows | io_scene_psk_psa/psk/reader.py:11-17 | reading a section appends its records to exactly one list (none for the header) |
| PskReader.ReadChunk | io_scene_psk_psa/psk/reader.py:22-53 | one pass of the loop advances past the header and stays within the file |
| PskReader.ReadSectionBody | io_scene_psk_psa/psk/reader.py:25-53 | a section's body stays within the file |
| PskReader.ReadFromStep | io_scene_psk_psa/psk/reader.py:22-53 | the loop reads one chunk and goes on from where it ends |
| PskReader.ReadPskEmpty | io_scene_psk_psa/psk/reader.py:19-22 | an empty file reads as an empty PSK |
| PskReader.ReadPskTruncatedHeader | io_scene_psk_psa/psk/reader.py:24 | a file shorter than one header raises ValueError |
| PskReader.AppendRecords | io_scene_psk_psa/psk/reader.py:11-17 | read_types appends the decoded records to the PSK's list in place |
| PskReader.Read | io_scene_psk_psa/psk/reader.py:19-54 | the reader's result is ReadPsk of the file: the same contents or the same error |
| PskReader.ReadSectionInto | io_scene_psk_psa/psk/reader.py:22-53 | one pass of the loop updates the PSK as ReadChunk says |
| PskRoundTrip.ReadChunkOfWritten | io_scene_psk_psa/psk/reader.py:22-53 | a readable section written at pos is read back from pos: its records are added and the reader continues where it ends |
| PskRoundTrip.HeaderOfWritten | io_scene_psk_psa/psk/reader.py:24 | a written header reads back with its name, record size and count, followed by the records |
| PskRoundTrip.BodyOfWritten | io_scene_psk_psa/psk/reader.py:11-17 | the body after a written header gives back the section's records |
| PskRoundTrip.RecordsReadable | io_scene_psk_psa/psk/reader.py:25-51 | a section is readable when its name selects a record class of the declared size |
| PskRoundTrip.ChunkReadable | io_scene_psk_psa/psk/writer.py:42-61 | every section write_psk writes is readable |
| PskRoundTrip.HeaderReadable | io_scene_psk_psa/psk/writer.py:43 | ACTRHEAD is read as the header |
| PskRoundTrip.PointsReadable | io_scene_psk_psa/psk/writer.py:44 | PNTS0000 is read as points |
| PskRoundTrip.Wedges16Readable | io_scene_psk_psa/psk/writer.py:55 | VTXW0000 with 16-byte records is read as Wedge16 |
| PskRoundTrip.Faces16Readable | io_scene_psk_psa/psk/writer.py:56 | FACE0000 is read as faces |
| PskRoundTrip.MaterialsReadable | io_scene_psk_psa/psk/writer.py:57 | MATT0000 is read as materials |
| PskRoundTrip.BonesReadable | io_scene_psk_psa/psk/writer.py:58 | REFSKELT is read as bones |
| PskRoundTrip.WeightsReadable | io_scene_psk_psa/psk/writer.py:59 | RAWWEIGHTS is read as weights |
| PskRoundTrip.NormalsReadable | io_scene_psk_psa/psk/writer.py:60-61 | VTXNORMS is read as vertex normals |
| PskRoundTrip.ReadBackStep | io_scene_psk_psa/psk/reader.py:22-53 | reading the k-th written section takes the lists read so far to those after k + 1 sections |
| PskRoundTrip.HeaderBack | io_scene_psk_psa/psk/reader.py:25-26 | the header adds nothing |
| PskRoundTrip.PointsBack | io_scene_psk_psa/psk/reader.py:27-28 | the points section gives back the points |
| PskRoundTrip.WedgesBack | io_scene_psk_psa/psk/reader.py:29-31 | the wedge section gives back the Wedge16 records written |
| PskRoundTrip.FacesBack | io_scene_psk_psa/psk/reader.py:36-37 | the face section gives back the faces |
| PskRoundTrip.MaterialsBack | io_scene_psk_psa/psk/reader.py:38-39 | the material section gives back the materials |
| PskRoundTrip.BonesBack | io_scene_psk_psa/psk/reader.py:40-41 | the bone section gives back the bones |
| PskRoundTrip.WeightsBack | io_scene_psk_psa/psk/reader.py:42-43 | the weight section gives back the weights |
| PskRoundTrip.NormalsBack | io_scene_psk_psa/psk/reader.py:50-51 | the normals section gives back the normals |
| PskRoundTrip.WrittenSteps | io_scene_psk_psa/psk/reader.py:22-53 | each section of a file of readable sections, read where it starts, takes one state to the next |
| PskRoundTrip.ReadChain | io_scene_psk_psa/psk/reader.py:22-53 | reading such a file to its end ends in the last state |
| PskRoundTrip.PskRoundTrip | io_scene_psk_psa/psk/writer.py:26-64 | the file write_psk writes for a mesh within the limits reads back as the same points, faces, materials, bones, weights and normals, with every wedge as its Wedge16 |
| PskRoundTrip.WedgesReadBack | io_scene_psk_psa/psk/writer.py:47-53 | wedges read back keep u and v, and their point and material indices whenever those fit the 32-bit and 8-bit fields |
| PskWriter.PskChunks | io_scene_psk_psa/psk/writer.py:42-61 | the _write_section calls of write_psk, in order |
| PskWriter.WritePsk | io_scene_psk_psa/psk/writer.py:26-64 | the limit checks raise RuntimeError in their order, else the file holds the sections of PskFile |
| PskWriter.WriteChunks | io_scene_psk_psa/psk/writer.py:42-61 | the seven sections always written, then VTXNORMS when there are normals |
| PskWriter.WriteChunk | io_scene_psk_psa/psk/writer.py:14-23 | each _write_section call appends its section after the earlier ones |
| PskWriter.ChunksBytesPrefix | io_scene_psk_psa/psk/writer.py:42-61 | the first n sections' bytes are their concatenation |
| PskWriter.ChunksBytesAll | io_scene_psk_psa/psk/writer.py:42-61 | the whole file is the concatenation of all sections |
| PskWriter.ConvertWedges | io_scene_psk_psa/psk/writer.py:46-53 | the loop copies every wedge into a Wedge16 |
| PskBuilder.PskInputMeshObjects | io_scene_psk_psa/psk/builder.py:82-89 | an empty list of mesh objects raises 'At least one mesh must be selected'; otherwise the objects are kept as given |
| PskBuilder.MeshObjectsForCollection | io_scene_psk_psa/psk/builder.py:59-60 | exactly the mesh objects of the collection's depth-first walk, each object/instancer pair once, in walk order |
| PskBuilder.MeshObjectsForContext | io_scene_psk_psa/psk/builder.py:63-68 | no view layer gives nothing; otherwise exactly the selected mesh objects of the view layer's walk, each pair once, in walk order |
| PskBuilder.PskInputObjectsForContext | io_scene_psk_psa/psk/builder.py:92-94 | fails with the no-mesh error exactly when there is no view layer or no selected mesh in it, else returns the selected meshes |
| PskBuilder.PskInputObjectsForCollection | io_scene_psk_psa/psk/builder.py:97-99 | fails with the no-mesh error exactly when the collection's walk holds no mesh, else returns its meshes |
| PskBuilder.ObjectSlotMaterials | io_scene_psk_psa/psk/builder.py:50-53 | one object's slots give their materials in order, and fail exactly when some slot is empty |
| PskBuilder.AllSlotMaterials | io_scene_psk_psa/psk/builder.py:48-53 | the objects' slot materials fail exactly when some object has an empty slot |
| PskBuilder.GetMaterialsForMeshObjects | io_scene_psk_psa/psk/builder.py:46-56 | the generator's loop yields MaterialsForMeshObjects: the first empty slot raises, else every material once |
| PskBuilder.ObjectSlotMaterialsPrefixErr | io_scene_psk_psa/psk/builder.py:52-53 | once a slot is empty, later slots do not change the error |
| PskBuilder.AllSlotMaterialsStopsAtFailure | io_scene_psk_psa/psk/builder.py:48-53 | the first object with an empty slot decides the error |
| PskBuilder.MaterialsForMeshObjectsMeaning | io_scene_psk_psa/psk/builder.py:54-56 | the yielded materials are distinct, are exactly the slot materials, and keep the order of first appearance |
| PskBuilder.MaterialsToExport | io_scene_psk_psa/psk/builder.py:165-175 | MANUAL gives one entry per listed name, present exactly when the name is a material; AUTOMATIC succeeds exactly when the slot walk does; any other mode is an assertion failure |
| PskBuilder.MaterialRecord | io_scene_psk_psa/psk/builder.py:177-184 | a material record succeeds exactly when its name fits the 64-byte field, carries the name bytes ('None' for no material), its index as texture index and the poly flags of its triangle type and bit flags |
| PskBuilder.MaterialRecords | io_scene_psk_psa/psk/builder.py:177-184 | every material gives its record in order, and the first name that does not fit fails the table |
| PskBuilder.BuildMaterials | io_scene_psk_psa/psk/builder.py:177-195 | the material loop fills psk.materials with MaterialTable, failing exactly when it does |
| PskBuilder.MaterialTableMeaning | io_scene_psk_psa/psk/builder.py:177-195 | the table has one record per material, or one 'None' record when there are none, each with its index and name |
| PskBuilder.MaterialRecordsMeaning | io_scene_psk_psa/psk/builder.py:177-184 | record i has texture index i and material i's name |
| PskBuilder.MaterialNames | io_scene_psk_psa/psk/builder.py:219 | the i-th name is material i's name or 'None' |
| PskBuilder.MaterialNameIndices | io_scene_psk_psa/psk/builder.py:130-142 | each slot's index is the first position of its material's name, or 0 for an empty slot or an unknown name |
| PskBuilder.ObjectMaterialIndices | io_scene_psk_psa/psk/builder.py:227-231 | an object without slots gets [0], else its slots' indices |
| PskBuilder.SlotIndicesInTable | io_scene_psk_psa/psk/builder.py:130-195 | every material index of an object points into the material table |
| PskBuilder.LoopMaterials | io_scene_psk_psa/psk/builder.py:340-342 | assigning triangle materials to loops raises IndexError exactly when a triangle's slot is out of range, else gives one index per loop |
| PskBuilder.LastTriangleWith | io_scene_psk_psa/psk/builder.py:340-342 | the last triangle using a loop, or none when no triangle does |
| PskBuilder.LoopMaterialsMeaning | io_scene_psk_psa/psk/builder.py:340-342 | each loop holds the material of the last triangle using it, or 0 when no triangle does |
| PskBuilder.LoopWedges | io_scene_psk_psa/psk/builder.py:313-327 | one wedge per loop, pointing at the loop's vertex plus the object's point offset, with the loop's material |
| PskBuilder.ObjectLoopWedges | io_scene_psk_psa/psk/builder.py:313-342 | the wedge loops build LoopWedges, or raise IndexError exactly as LoopMaterials does |
| PskBuilder.AppendUniqueWedges | io_scene_psk_psa/psk/builder.py:345-355 | psk.wedges gains each distinct wedge once in first-seen order, and every loop maps to its wedge's new index |
| PskBuilder.UniqueWedges | io_scene_psk_psa/psk/builder.py:345-355 | the dictionary loop keeps the wedges without repeats, first-seen order, and maps each loop to its wedge's index after base |
| PskBuilder.LoopWedgeIndicesRoundTrip | io_scene_psk_psa/psk/builder.py:345-355 | the wedge at a loop's index is that loop's wedge, and the new wedges are distinct |
| PskBuilder.TriangleFace | io_scene_psk_psa/psk/builder.py:360-367 | a face takes its corners from the triangle's loops in reverse order, the slot's material and the polygon's smoothing group, truncated to the record's fields |
| PskBuilder.Flipped | io_scene_psk_psa/psk/builder.py:369-372 | flipping swaps the first and last corner and keeps material and smoothing groups |
| PskBuilder.FlippedInvolution | io_scene_psk_psa/psk/builder.py:369-372 | flipping twice gives the face back |
| PskBuilder.ObjectFaces | io_scene_psk_psa/psk/builder.py:358-372 | one face per loop triangle |
| PskBuilder.AppendFaces | io_scene_psk_psa/psk/builder.py:358-372 | psk.faces gains the object's faces, flipped when the object is mirrored |
| PskBuilder.FlippedEntry | io_scene_psk_psa/psk/builder.py:369-372 | a flipped face record has its corners reversed |
| PskBuilder.FlipFaces | io_scene_psk_psa/psk/builder.py:369-372 | faces before start are kept, every later face is flipped |
| PskBuilder.FaceCornersFollowLoops | io_scene_psk_psa/psk/builder.py:360-372 | read back, a face's corners are its triangle's loops' wedges, in loop order when flipped and reversed otherwise |
| PskBuilder.NearestExported | io_scene_psk_psa/psk/builder.py:392-398 | the ancestor walk finds a bone whose name is exported |
| PskBuilder.NearestExportedMeaning | io_scene_psk_psa/psk/builder.py:392-398 | the result is the nearest exported ancestor within fuel steps, or none when no ancestor within fuel steps is exported |
| PskBuilder.VertexGroupBoneIndex | io_scene_psk_psa/psk/builder.py:384-398 | a group named after an exported bone maps to that bone's index plus the root offset, a name that is no bone maps nowhere, and any result lies in the armature's bone range |
| PskBuilder.VertexGroupBoneIndices | io_scene_psk_psa/psk/builder.py:382-398 | every vertex group gets its bone index |
| PskBuilder.VertexRecords | io_scene_psk_psa/psk/builder.py:411-423 | every vertex with a non-zero weight in the group gets a weight record for the group's bone, and no record has weight zero |
| PskBuilder.GroupRecords | io_scene_psk_psa/psk/builder.py:406-423 | the weight records of the groups with a bone never have weight zero |
| PskBuilder.FallbackRecords | io_scene_psk_psa/psk/builder.py:426-433 | every vertex no group weighted gets weight 1 on the root bone, and only such records are added |
| PskBuilder.AppendWeights | io_scene_psk_psa/psk/builder.py:375-433 | psk.weights gains ObjectWeights: the group records, then the root-bone fallbacks |
| PskBuilder.AppendFallbackWeights | io_scene_psk_psa/psk/builder.py:426-433 | the fallback loop appends FallbackRecords for the vertices the flags mark as unassigned |
| PskBuilder.AppendGroupWeights | io_scene_psk_psa/psk/builder.py:411-423 | one group's loop appends its records and marks the vertices it weighted |
| PskBuilder.AssignedStep | io_scene_psk_psa/psk/builder.py:406-423 | a vertex is assigned after group g exactly when it was before or group g has a bone and weights it |
| PskBuilder.ObjectWeightsMeaning | io_scene_psk_psa/psk/builder.py:375-433 | no weight record is zero and every vertex of the object gets at least one record |
| PskBuilder.UnweightedVertexFallsBack | io_scene_psk_psa/psk/builder.py:426-433 | a vertex that no group weights gets weight 1 on the root bone |
| PskBuilder.GroupRecordsHold | io_scene_psk_psa/psk/builder.py:406-423 | every kept group weight appears among the records |
| PskBuilder.SplitNormals | io_scene_psk_psa/psk/builder.py:317-319 | every loop normal of a vertex is gathered for it |
| PskBuilder.SplitNormalsByVertex | io_scene_psk_psa/psk/builder.py:308 | the split-normal table has the requested size |
| PskBuilder.ObjectNormalsAsWritten | io_scene_psk_psa/psk/builder.py:308-337 | as written, an object gets one averaged normal per point of the whole mesh so far |
| PskBuilder.ObjectNormals | io_scene_psk_psa/psk/builder.py:330-337 | one normal per vertex of the object, the average of its loop normals, or of none when there is no UV layer |
| PskBuilder.AppendVertexNormals | io_scene_psk_psa/psk/builder.py:330-337 | psk.vertex_normals gains ObjectNormals |
| PskBuilder.AllNormalsAligned | io_scene_psk_psa/psk/builder.py:308-337 | with one table per object, there is one normal per exported point, and the normal at a point's index is that point's own normal |
| PskBuilder.NormalsAsWrittenMisaligned | io_scene_psk_psa/psk/builder.py:308 | as written, three one-vertex meshes give six normals, and the third point's normal is zero instead of its own |
| PskBuilder.ObjectError | io_scene_psk_psa/psk/builder.py:239-262 | an unknown evaluation state is an assertion failure, an evaluated object outside the view layer is not evaluated, otherwise the export space decides |
| PskBuilder.ExportSpaceError | io_scene_psk_psa/psk/builder.py:280-286 | only an unknown export space is an assertion failure |
| PskBuilder.LoopWedgeIndices | io_scene_psk_psa/psk/builder.py:345-355 | each loop's index is base plus its wedge's first-seen position |
| PskBuilder.ObjectContribution | io_scene_psk_psa/psk/builder.py:221-433 | one object fails exactly on its evaluation or export-space error or an out-of-range slot, else adds its points and one face per triangle |
| PskBuilder.Contributed | io_scene_psk_psa/psk/builder.py:294-433 | a successful object adds its own points and one face per triangle |
| PskBuilder.Extended | io_scene_psk_psa/psk/builder.py:294-433 | an object appends to points, wedges, faces, weights and normals and leaves materials and bones alone |
| PskBuilder.ObjectContributionOfError | io_scene_psk_psa/psk/builder.py:239-286 | an object error is the object's result |
| PskBuilder.ObjectContributionOfMaterials | io_scene_psk_psa/psk/builder.py:340-342 | without an object error, the material assignment decides between IndexError and the contribution |
| PskBuilder.LoopWedgeIndicesUnique | io_scene_psk_psa/psk/builder.py:345-355 | any loop-to-wedge map with these properties is LoopWedgeIndices |
| PskBuilder.AppendPoints | io_scene_psk_psa/psk/builder.py:296-302 | psk.points gains the object's points |
| PskBuilder.AppendPointsAndNormals | io_scene_psk_psa/psk/builder.py:294-337 | only points and vertex normals change: the object's points, and its normals when they are exported |
| PskBuilder.AppendWedgesFacesWeights | io_scene_psk_psa/psk/builder.py:345-433 | only wedges, faces and weights change, by the unique wedges, the object's faces and its weights |
| PskBuilder.BuildObject | io_scene_psk_psa/psk/builder.py:221-433 | one pass of the object loop appends exactly ObjectContribution, or fails with its error |
| PskBuilder.ObjectsBuiltStep | io_scene_psk_psa/psk/builder.py:221 | each object extends the lists built so far, or ends the export with its error |
| PskBuilder.ObjectsBuiltStopsAtError | io_scene_psk_psa/psk/builder.py:221 | the first failing object decides the error |
| PskBuilder.ContributionOfPoints | io_scene_psk_psa/psk/builder.py:294-302 | every object contributes exactly its own points |
| PskBuilder.ObjectsBuiltPoints | io_scene_psk_psa/psk/builder.py:221-302 | the built points are all objects' points in order |
| PskBuilder.ObjectsBuiltKeepsTables | io_scene_psk_psa/psk/builder.py:221-433 | the object loop leaves materials and bones alone |
| PskBuilder.PskBuiltLayout | io_scene_psk_psa/psk/builder.py:145-237 | a successful build has the material table, the bones and all objects' points |
| PskBuilder.BuildPsk | io_scene_psk_psa/psk/builder.py:145-450 | build_psk gives PskBuilt: the material error, or the first object's error, or the lists and warnings of every object |
| PskBuilder.BuildObjects | io_scene_psk_psa/psk/builder.py:221-433 | the object loop gives exactly ObjectsBuilt over the objects: the lists and warnings of every object, or the first object's error |
| PskBuilder.BuildObjectsAndWeights | io_scene_psk_psa/psk/builder.py:221-450 | after the objects, the weights are sorted by point and normalized; the first error of either step is returned |
| Dfs.Children | io_scene_psk_psa/shared/dfs.py:55 | an object's children are exactly the objects whose parent it is, in scene order |
| Dfs.ObjectTree | io_scene_psk_psa/shared/dfs.py:45-57 | the walk from an object yields it first and then only members of the collection |
| Dfs.Forest | io_scene_psk_psa/shared/dfs.py:55-57 | the children's walks yield only members of the collection |
| Dfs.RootsAmong | io_scene_psk_psa/shared/dfs.py:68-71 | the roots are exactly the collection's objects whose parent is missing or outside the collection |
| Dfs.Trees | io_scene_psk_psa/shared/dfs.py:72-73 | the roots' walks yield only members of the collection |
| Dfs.CollectionHierarchy | io_scene_psk_psa/shared/dfs.py:60-73 | dfs_objects_in_collection yields only members of the collection |
| Dfs.ObjectTreeMembers | io_scene_psk_psa/shared/dfs.py:45-57 | an object's walk yields exactly the objects reached from it through parent links inside the collection |
| Dfs.BelowChain | io_scene_psk_psa/shared/dfs.py:45-57 | two objects above the same object lie on one parent chain |
| Dfs.SiblingsApart | io_scene_psk_psa/shared/dfs.py:55-57 | no object lies under two different children of the same parent |
| Dfs.RootsApart | io_scene_psk_psa/shared/dfs.py:68-73 | no object lies under two different roots |
| Dfs.RootAbove | io_scene_psk_psa/shared/dfs.py:68-73 | every member of a collection lies under one of its roots |
| Dfs.ObjectTreeOrder | io_scene_psk_psa/shared/dfs.py:54-57 | in an object's walk every object comes after its parent |
| Dfs.ObjectTreeDistinct | io_scene_psk_psa/shared/dfs.py:45-57 | an object's walk yields no object twice |
| Dfs.TreesMembers | io_scene_psk_psa/shared/dfs.py:72-73 | the roots' walks yield exactly what one of the roots' walks yields |
| Dfs.TreesDistinct | io_scene_psk_psa/shared/dfs.py:72-73 | the walks of distinct roots yield no object twice |
| Dfs.CollectionHierarchyMembers | io_scene_psk_psa/shared/dfs.py:60-73 | dfs_objects_in_collection yields exactly the collection's objects |
| Dfs.CollectionHierarchyExact | io_scene_psk_psa/shared/dfs.py:60-73 | for a collection without repeats it yields each of its objects exactly once |
| Dfs.Traversal.CollectionObjects | io_scene_psk_psa/shared/dfs.py:86-131 | the recursive generator's state after a collection is CollectionWalk: child collections first, then the collection's objects, recursing into instancers |
| Dfs.Traversal.LayerObjects | io_scene_psk_psa/shared/dfs.py:142-146 | the layer walk visits the child layer collections first, then the collection itself, sharing one visited set |
| Dfs.DfsCollectionObjects | io_scene_psk_psa/shared/dfs.py:76-83 | dfs_collection_objects yields CollectionDfs |
| Dfs.DfsViewLayerObjects | io_scene_psk_psa/shared/dfs.py:134-148 | dfs_view_layer_objects yields ViewLayerDfs |
| Dfs.CollectionWalkGrows | io_scene_psk_psa/shared/dfs.py:86-131 | the walk only appends to what was yielded, and each yielded object is recorded as visited with its last instancer |
| Dfs.CollectionWalkCovers | io_scene_psk_psa/shared/dfs.py:86-131 | after a collection's walk every object reachable in it, through child collections and instances, has been visited |
| Dfs.ChildCollectionsFirst | io_scene_psk_psa/shared/dfs.py:110-131 | the child collections' objects come before the collection's own objects |
| Dfs.CollectionDfsOnce | io_scene_psk_psa/shared/dfs.py:76-131 | no object/instancer pair is yielded twice, each yielded object is reachable, and every reachable pair is yielded |
| Dfs.ViewLayerDfsOnce | io_scene_psk_psa/shared/dfs.py:134-148 | the same for a view layer walk |
| Dfs.YieldedSelection | io_scene_psk_psa/shared/dfs.py:23-42 | a yielded object's visibility and selection are those of its last instancer, or its own when it has none |

## Left out

- Host API calls are not modelled: bpy, bmesh and mathutils, the depsgraph, creating edit bones, fcurves, meshes and vertex groups, progress reporting and the UI (draw/invoke/poll, property schemas, registration). Where their results matter they are parameters: the mesh's loops, triangles and vertex-group weights, whether Blender accepted a face, the scene's objects and collections, the existing actions.
- Floating-point arithmetic is not modelled:
  - the quaternion and matrix math of `create_psx_bones_from_blender_bones`;
  - the export-space and world matrices of the builder;
  - the bind-pose matrices of the PSK importer;
  - `_calculate_fcurve_data` and `convert_to_samples`;
  - `rgb_to_srgb` and colour scaling;
  - `translation_scale`.
  Floats are opaque records that are copied and compared only.
- PsaImporter.LerpBetween: only the per-channel location interpolation of the resampling (io_scene_psk_psa/psa/importer.py:141) is modelled, with exact reals. The rotation slerp and its normalisation (:139-140) are quaternion arithmetic and are left out.
- SampleFrameTimes, GetSampleFrameTimes, KeyframeCount: the model adds the frame step in exact reals. io_scene_psk_psa/psa/importer.py:112-116 accumulates `time += frame_step` in IEEE doubles, and rounding can add one sample. For example, with a step of 0.1 over one frame, ten additions give 0.9999999999999999 < 1, so the source yields 12 times where the model counts 11. The model's schedule properties hold for the exact sum only.
- PskData.SortAndNormalizeWeights and PskData.Normalized: weights are reals and the model divides exactly. io_scene_psk_psa/psk/data.py:136 stores each quotient back into a `c_float`, which rounds to single precision.
- PskBuilder.ObjectNormals and PskBuilder.AppendVertexNormals: the averaging and normalising of the split normals (io_scene_psk_psa/psk/builder.py:332-336) is a parameter `average`. Only which loop normals are gathered for which vertex is modelled.
- Character decoding of names is not modelled except where it is Windows-1252 (`Cp1252.DecodeBytes`):
  - `decode()` of sequence names at io_scene_psk_psa/psa/reader.py:118, and `decode('utf-8')` of bone and material names at io_scene_psk_psa/psk/importer.py:108 and :131, can raise UnicodeDecodeError. The model files PSA sequences under their raw name bytes, and the PSK importer model takes names as given.
  - The names the PSA importer compares (io_scene_psk_psa/psa/importer.py:160 and :243) and the vertex-group and shape-key names of the PSK importer (:259 and :272) are taken as already decoded strings.
- PsxBoneList.NameKey: the name-conflict check of io_scene_psk_psa/shared/helpers.py:386 decodes Windows-1252 and applies Python's Unicode `upper()`. The model upper-cases the ASCII letters of the raw bytes only, so names that differ only in the case of a non-ASCII letter (é and É) count as different in the model.
- Bdk.IsWordChar: `\w` is ASCII letters, digits and '_' in the model. Python's `\w` in a str pattern (io_scene_psk_psa/bdk.py:21 and :28) is Unicode, so a reference such as `Bé'P.O'` parses in the source and is rejected by the model.
- The messages the source prints are not modelled: the bad-reference message of io_scene_psk_psa/bdk.py:24 and the unrecognised PSA section message of io_scene_psk_psa/psa/reader.py:125. The reader's behaviour (skipping the section) is modelled.
- PskReader: io_scene_psk_psa/psk/reader.py cannot be imported as written. Its `from .data import *` brings in only the names io_scene_psk_psa/psk/data.py:4 imports, and `Section` is not one of them. The annotation `section: Section` of `read_types` (io_scene_psk_psa/psk/reader.py:11) is evaluated when the method is defined, so importing the module raises NameError. Besides, io_scene_psk_psa/psk/import_/operators.py:14 imports `read_psk`, which psk/reader.py does not define, so the import operator fails with ImportError. The model is of `PskReader.read` as if its module loaded: it reads the header with the layout of io_scene_psk_psa/shared/data.py:103-113, as the rest of the add-on does.
- File I/O is not modelled: open, seek, read, makedirs, PermissionError, the reader's file handle lifetime, and the file read and `ConfigParser` of `_load_config_file`. Files are byte sequences, and the configuration is a list of (key, value) entries. The writer's `makedirs` and the PermissionError message of io_scene_psk_psa/psk/writer.py:39 and :63-64 are left out.
- The internals of `re` and `fnmatch` are not modelled. The glob patterns are modelled by `Glob.GlobMatch`, with the limits given on its own line below. The regular-expression filter mode is an abstract predicate, with `None` for an invalid pattern.
- Text.Lower: Python's `str.lower()` is Unicode, and the model lowers the ASCII letters A-Z only. Python maps 'É' to 'é', which the model leaves as they are, and maps 'İ' to two characters, so Python's lowering need not keep the length. Every member built on it inherits this: PsaConfig.FirstLowerMatch (and through it `PsaConfig.EntryTarget` and `PsaConfig.PsaConfig.ApplyRemoveTracksEntry`) and PsaImporter.BoneIndexFor in CASE_INSENSITIVE mode.
- Text.IsDigit: `\d` in a str pattern (io_scene_psk_psa/psa/config.py:58 and io_scene_psk_psa/psa/export/properties.py:73) matches every Unicode decimal digit, and the model's `IsDigit` accepts the ASCII digits 0-9 only.
- PsaConfig.FirstLowerMatch: the key and the sequence names are compared under the ASCII lowering of `Text.Lower`. Python's `lower()` at io_scene_psk_psa/psa/config.py:65-66 also folds non-ASCII letters, so a key `é.0` finds a sequence `É` in the source and finds nothing in the model.
- PsaImporter.BoneIndexFor: CASE_INSENSITIVE mode compares under the ASCII lowering of `Text.Lower`. Python's `lower()` at io_scene_psk_psa/psa/importer.py:90 also folds non-ASCII letters, so `Bône` and `BÔNE` match in the source and do not in the model.
- Glob.GlobMatch: the model knows '*' and '?' only, and is case-sensitive as `fnmatch` is on POSIX. Two parts of `fnmatch` are not modelled. A `[seq]` or `[!seq]` in the pattern is a character class in `fnmatch` and a run of literal characters in the model. On Windows, `fnmatch` applies `os.path.normcase` to both sides, which ignores case and treats `/` as `\`. So a filter text holding a bracket, or a name that differs from it only in case on Windows, can be let through differently. This affects Glob.ContainsMatch and the name filter of PsaImportProperties.FilterSequences (io_scene_psk_psa/psa/import_/properties.py:153) and of PsaExportProperties.FilterSequences (io_scene_psk_psa/psa/export/properties.py:239).
- Glob.ContainsMatch: its statement is about the model `GlobMatch`. For the real `fnmatch` it holds on POSIX for a text without '*', '?' or '['; see the Glob.GlobMatch line for the rest.
- PskImporter.BoneParents: a bone whose parent index is its own index is recorded as its own parent, as the loop of io_scene_psk_psa/psk/importer.py:107-112 assigns it. What Blender's `parent` setter then does with the self-reference is not part of this model.
- UniqueWedges and AppendUniqueWedges: wedges are deduplicated by equality of their key (io_scene_psk_psa/psk/builder.py:348). Two different wedges whose Python hashes collide would be merged by the source and are not by the model.
- PsaExportOperators.MarkerFrameRangeBounds and PsaExportOperators.MarkerOnSortedFrame assume DistinctMarkerNames: the source keys timeline markers by name (io_scene_psk_psa/psa/export/operators.py:206-225), so with duplicate marker names its lookup can pick the wrong neighbour. `GetTimelineMarkerSequenceFrameRanges` itself models duplicates as written.
- PsaImporter.ParentMissingMeansUnfound, PsaImporter.UsedNameIffFound and PsaImporter.UsedNameFound assume DistinctNames of the armature's bones, which Blender guarantees. The mapping functions themselves (io_scene_psk_psa/psa/importer.py:81-105, 158-217) do not assume it.
- PskBuilder.NearestExported: the walk up the parents (io_scene_psk_psa/psk/builder.py:392-398) follows at most as many links as the armature has bones. In an acyclic bone hierarchy, which Blender guarantees, this bound is never reached. A cyclic parent chain, on which the source would loop forever, is not modelled.
- PskBuilder.BuildPsk takes the exported bones as a parameter: the bones `create_psx_bones` produced (modelled in `PsxBoneList`). Each mesh object's armature binding is part of the object: the root bone index and bone names `create_psx_bones` recorded for its armature, and the armature's bones with their parents.
- Dfs: object world matrices and collection instance offsets are left out. A view layer is modelled by its root collection's hierarchy: the layer collections are taken to mirror the collections. Parent links and collection nesting are assumed acyclic, as Blender guarantees; this is the scene's `Valid` predicate.
- MaterialOrder.MaterialNameList.MoveUp and MaterialOrder.MaterialNameList.MoveDown require an active index inside the list. Blender's `collection.move` with an out-of-range index is not modelled.
- `update_actions_and_timeline_markers` (io_scene_psk_psa/psa/export/operators.py:117-147) fills the panel's lists from the scene. Its action and pose-marker entries are modelled (`GetSequencesFromAction`, `CollectPoseMarkerItems`). So are the parts of its marker entries: the frame ranges (`GetTimelineMarkerSequenceFrameRanges`) and the name split (`PsaExportProperties.SequencesFromNameShape`). The loop that adds the marker entries, skipping blank and '#' names (117-132), is not modelled. Neither is the active-action list (134-147), whose entries come from host lookups.
- `get_animation_data_object` (io_scene_psk_psa/psa/export/operators.py:178-191) and `get_animation_data` (io_scene_psk_psa/psa/export/properties.py:89-93) are host lookups and are left out. Animation data is a parameter.
- `populate_bone_group_list` of io_scene_psk_psa/helpers.py:35-52 reads Blender's bone groups, which newer Blender removed. Only the legacy add-on's copy (`LegacyHelpers.BoneGroupList.PopulateBoneGroupsList`) is modelled.
- `populate_bone_collection_list` (io_scene_psk_psa/shared/helpers.py:31) is not modelled: its signature does not match its callers.
- The BDK material linking of the PSK importer is not modelled: it reads and parses files on disk.
- Stale modules whose names do not resolve, and the modules that only serve the UI, are not modelled.
  - Stale: io_scene_psk_psa/psa/builder.py, psa/exporter.py, psk/exporter.py, the io_export_psk_psa add-on apart from its helpers.py, and src/.
  - UI: the operators' draw code, the ui.py files and the file handlers.

## Findings

Each row's as-written member is the lemma that exhibits the discrepancy on the as-written definition. The corrected member is the definition the rest of the model uses; the lemmas named in the text prove its intended property.

| source | as written | input that shows it | evidently intended | confidence | as-written member | corrected member |
|---|---|---|---|---|---|---|
| io_scene_psk_psa/psk/reader.py:53 | the error for an unknown section name uses the format specification `{15:fp.tell()}`, which Python rejects with ValueError before the RuntimeError is built; modelled by `PskReader.SectionKindAsWritten`, and `PskReader.UnknownSectionError` shows both outcomes for every unknown name | a file whose first chunk is named `X` | RuntimeError('Unrecognized section …') | not executed | PskReader.UnknownSectionExample | PskReader.SectionKindOf |
| io_scene_psk_psa/bdk.py:28-31 | the path `.` matches the first pattern, `re.findall` then finds no tokens, and `values[0]` raises IndexError; modelled by `Bdk.FromString` | `T'.'` | a reference without tokens rejected like any bad string (None), as `Bdk.FromStringChecked` states | not executed | Bdk.DotsOnlyPathFails | Bdk.FromStringChecked |
| io_scene_psk_psa/bdk.py:34-39 | `__repr__` never writes the closing quote, so `from_string` rejects what `__repr__` renders; modelled by `Bdk.Repr` | `UReference('T', 'P', 'O')` renders `T'P.O` | `T'P.O'`, which parses back, as `Bdk.QuotedRoundTrip` proves | not executed | Bdk.ReprDoesNotParse | Bdk.ReprQuoted |
| io_scene_psk_psa/psk/builder.py:308-331 | the split-normal table is sized by `len(psk.points)`, the running total over all objects, and every entry is exported, so from the second object on extra normals are written and later points' normals are misaligned; modelled by `PskBuilder.ObjectNormalsAsWritten` | three meshes of one vertex each: six normals, the third point's normal zero | one table per object, one normal per point at its own index, as `PskBuilder.AllNormalsAligned` proves | not executed | PskBuilder.NormalsAsWrittenMisaligned | PskBuilder.ObjectNormals |
| io_scene_psk_psa/psk/importer.py:206-212 | each extra UV layer is filled from the primary wedge UVs, and the extra UV records and the advancing offset are never read; modelled by `PskImporter.ExtraUvLayersAsWritten`, and `PskImporter.ExtraUvLayersCopyPrimary` shows the extra UVs make no difference | one wedge with UV (0, 0), one extra UV (0.5, 0.5) | layer n reads the extra UV at n * len(wedges) + wedge index | not executed | PskImporter.ExtraUvsIgnoredExample | PskImporter.ExtraUvLayers |
