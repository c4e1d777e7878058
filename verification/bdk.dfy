// `UReference` of io_scene_psk_psa/bdk.py: an Unreal object reference of
// the form Type'Package.Group.Object', parsed from and rendered to text.
// The two regular expressions are written out as the scans they perform.
module Bdk {
  import opened Wrappers

  datatype UReference = UReference(typeName: string, packageName: string, objectName: string, groupName: Option<string>)

  /** `\w`, restricted to ASCII: letters, digits and the underscore. */
  predicate IsWordChar(c: char)
  {
    ('a' <= c <= 'z') || ('A' <= c <= 'Z') || ('0' <= c <= '9') || c == '_'
  }

  /** The class `[\w\.\d\-\_]` of the quoted path. */
  predicate IsPathChar(c: char)
  {
    IsWordChar(c) || c == '.' || c == '-'
  }

  /** The class `[\w\d\-\_]` of a path token. */
  predicate IsTokenChar(c: char)
  {
    IsWordChar(c) || c == '-'
  }

  /** The length of the longest prefix of s whose characters all satisfy p. */
  function LeadingRun(s: string, p: char -> bool): (n: nat)
    ensures n <= |s|
    ensures forall i :: 0 <= i < n ==> p(s[i])
    ensures n < |s| ==> !p(s[n])
  {
    if s == [] || !p(s[0]) then 0 else 1 + LeadingRun(s[1..], p)
  }

  /** A run that stops at the first character failing p is the leading run. */
  lemma {:induction false} LeadingRunIs(s: string, p: char -> bool, k: nat)
    requires k <= |s| && (forall i :: 0 <= i < k ==> p(s[i])) && (k < |s| ==> !p(s[k]))
    ensures LeadingRun(s, p) == k
  {
    if k > 0 {
      LeadingRunIs(s[1..], p, k - 1);
    }
  }

  /**
   * `re.match(r"(\w+)'([\w\.\d\-\_]+)'", string)`: the two groups, or None.
   * Both classes exclude the quote, so the greedy runs never backtrack.
   */
  function MatchReference(s: string): (r: Option<(string, string)>)
  {
    var k := LeadingRun(s, IsWordChar);
    if k == 0 || k == |s| || s[k] != '\'' then None
    else
      var rest := s[k + 1..];
      var m := LeadingRun(rest, IsPathChar);
      if m == 0 || m == |rest| || rest[m] != '\'' then None
      else Some((s[..k], rest[..m]))
  }

  /**
   * Whether s starts with k word characters, a quote, m path characters and
   * another quote, stated without the scan.
   */
  predicate ReferenceAt(s: string, k: nat, m: nat)
  {
    0 < k && 0 < m && k + 1 + m < |s|
    && AllChars(s[..k], IsWordChar) && s[k] == '\''
    && AllChars(s[k + 1..k + 1 + m], IsPathChar) && s[k + 1 + m] == '\''
  }

  ghost predicate StartsWithReference(s: string)
  {
    exists k: nat, m: nat :: ReferenceAt(s, k, m)
  }

  /** The scan finds a match exactly when the string starts with the pattern. */
  lemma MatchReferenceIff(s: string)
    ensures MatchReference(s).Some? <==> StartsWithReference(s)
  {
    if MatchReference(s).Some? {
      MatchIsReference(s);
    }
    if StartsWithReference(s) {
      var k, m :| ReferenceAt(s, k, m);
      ReferenceIsMatch(s, k, m);
    }
  }

  lemma MatchIsReference(s: string)
    requires MatchReference(s).Some?
    ensures ReferenceAt(s, LeadingRun(s, IsWordChar), LeadingRun(s[LeadingRun(s, IsWordChar) + 1..], IsPathChar))
  {
    var k := LeadingRun(s, IsWordChar);
    var rest := s[k + 1..];
    var m := LeadingRun(rest, IsPathChar);
    assert s[k + 1..k + 1 + m] == rest[..m];
  }

  lemma ReferenceIsMatch(s: string, k: nat, m: nat)
    requires ReferenceAt(s, k, m)
    ensures MatchReference(s) == Some((s[..k], s[k + 1..k + 1 + m]))
  {
    assert forall i :: 0 <= i < k ==> s[..k][i] == s[i];
    LeadingRunIs(s, IsWordChar, k);
    var rest := s[k + 1..];
    assert forall i :: 0 <= i < m ==> rest[i] == s[k + 1..k + 1 + m][i];
    assert rest[m] == s[k + 1 + m];
    LeadingRunIs(rest, IsPathChar, m);
    assert rest[..m] == s[k + 1..k + 1 + m];
  }

  /** `re.findall(r"([\w\d\-\_]+)", path)`: the maximal runs of token characters. */
  function Tokens(s: string): (r: seq<string>)
    ensures forall i :: 0 <= i < |r| ==> r[i] != [] && forall j :: 0 <= j < |r[i]| ==> IsTokenChar(r[i][j])
    decreases |s|
  {
    if s == [] then []
    else if !IsTokenChar(s[0]) then Tokens(s[1..])
    else
      var n := LeadingRun(s, IsTokenChar);
      [s[..n]] + Tokens(s[n..])
  }

  /**
   * `UReference.from_string` as written: 'None' and non-matching strings
   * give None; otherwise the package is the first token of the path and the
   * object the last. A path made only of dots has no token, and `values[0]`
   * raises IndexError.
   */
  function FromString(s: string): (r: Result<Option<UReference>>)
    ensures r.Ok? && r.value.Some? ==> r.value.value.groupName.None?
  {
    if s == "None" then Ok(None)
    else match MatchReference(s)
      case None => Ok(None)
      case Some((typeName, path)) =>
        var values := Tokens(path);
        if values == [] then Err(IndexError)
        else Ok(Some(UReference(typeName, values[0], values[|values| - 1], None)))
  }

  /** A path of dots alone makes the parser fail instead of rejecting the string. */
  lemma DotsOnlyPathFails()
    ensures FromString("T'.'") == Err(IndexError)
  {
    var s := "T'.'";
    LeadingRunIs(s, IsWordChar, 1);
    LeadingRunIs(s[2..], IsPathChar, 1);
    assert MatchReference(s) == Some((s[..1], s[2..][..1]));
    assert s[2..][..1] == ".";
    assert Tokens(".") == Tokens(".."[2..]);
  }

  /** `from_string` with the empty token list treated as a bad reference. */
  function FromStringChecked(s: string): (r: Option<UReference>)
    ensures r.Some? ==> MatchReference(s).Some?
    ensures FromString(s).Ok? ==> r == FromString(s).value
    ensures FromString(s).Err? ==> r.None?
  {
    if s == "None" then None
    else match MatchReference(s)
      case None => None
      case Some((typeName, path)) =>
        var values := Tokens(path);
        if values == [] then None
        else Some(UReference(typeName, values[0], values[|values| - 1], None))
  }

  /**
   * On a match the type name is the leading word run, the package and the
   * object are the first and last tokens of the quoted path (the same token
   * when there is only one), and there is no group.
   */
  lemma ParsedFields(s: string)
    requires FromStringChecked(s).Some?
    ensures var r := FromStringChecked(s).value;
      var path := MatchReference(s).value.1;
      r.typeName == s[..LeadingRun(s, IsWordChar)] && r.typeName != []
      && Tokens(path) != [] && r.packageName == Tokens(path)[0] && r.objectName == Tokens(path)[|Tokens(path)| - 1]
      && r.groupName == None
      && (|Tokens(path)| == 1 ==> r.packageName == r.objectName)
  {
  }

  /** `UReference.__repr__`: no closing quote follows the object name. */
  function Repr(r: UReference): string
  {
    r.typeName + "'" + r.packageName
    + (if r.groupName.Some? && r.groupName.value != [] then "." + r.groupName.value else "")
    + "." + r.objectName
  }

  predicate AllChars(s: string, p: char -> bool)
  {
    forall i :: 0 <= i < |s| ==> p(s[i])
  }

  /** A reference whose names are non-empty runs of word characters. */
  predicate WordNames(r: UReference)
  {
    r.typeName != [] && AllChars(r.typeName, IsWordChar)
    && r.packageName != [] && AllChars(r.packageName, IsWordChar)
    && r.objectName != [] && AllChars(r.objectName, IsWordChar)
    && (r.groupName.Some? ==> AllChars(r.groupName.value, IsWordChar))
  }

  /** Without the closing quote, the rendered reference does not parse back. */
  lemma ReprDoesNotParse(r: UReference)
    requires WordNames(r)
    ensures FromString(Repr(r)) == Ok(None)
  {
    var s := Repr(r);
    var k := |r.typeName|;
    assert s[k] == '\'';
    assert forall i :: 0 <= i < k ==> s[i] == r.typeName[i];
    LeadingRunIs(s, IsWordChar, k);
    var rest := s[k + 1..];
    assert forall i :: 0 <= i < |rest| ==> IsPathChar(rest[i]);
    assert s != "None" by { assert s[k] == '\''; }
  }

  /** `__repr__` with the closing quote that `from_string` expects. */
  function ReprQuoted(r: UReference): (s: string)
    ensures s == Repr(r) + "'"
  {
    Repr(r) + "'"
  }

  /** The tokens of "package.object". */
  lemma TokensOfDotted(a: string, b: string)
    requires a != [] && AllChars(a, IsWordChar) && b != [] && AllChars(b, IsWordChar)
    ensures Tokens(a + "." + b) == [a, b]
  {
    var s := a + "." + b;
    LeadingRunIs(s, IsTokenChar, |a|);
    assert s[..|a|] == a && s[|a|..] == "." + b;
    assert Tokens(s) == [a] + Tokens("." + b);
    assert ("." + b)[1..] == b;
    assert Tokens("." + b) == Tokens(b);
    LeadingRunIs(b, IsTokenChar, |b|);
    assert b[..|b|] == b && b[|b|..] == [];
    assert Tokens(b) == [b];
  }

  /**
   * With the closing quote, a group-less reference made of word-character
   * names parses back to itself.
   */
  lemma QuotedRoundTrip(r: UReference)
    requires WordNames(r) && r.groupName.None?
    ensures FromStringChecked(ReprQuoted(r)) == Some(UReference(r.typeName, r.packageName, r.objectName, None))
  {
    var s := ReprQuoted(r);
    var path := r.packageName + "." + r.objectName;
    assert s == r.typeName + "'" + path + "'";
    var k := |r.typeName|;
    assert s[..k] == r.typeName;
    assert s[k + 1..k + 1 + |path|] == path;
    ReferenceIsMatch(s, k, |path|);
    TokensOfDotted(r.packageName, r.objectName);
    assert s != "None" by { assert s[k] == '\''; }
  }
}
