// Shell-style name matching after `fnmatch.fnmatch` on POSIX systems, where
// it is case-sensitive: '*' matches any run of characters, '?' any one
// character, and every other character itself. The `[seq]` and `[!seq]`
// character classes of `fnmatch` are not part of this model: a bracket here
// is an ordinary character.
module Glob {

  predicate IsWildcard(c: char)
  {
    c == '*' || c == '?'
  }

  /** Whether name matches pattern. */
  predicate GlobMatch(name: string, pattern: string)
    decreases |name| + |pattern|
  {
    if pattern == [] then name == []
    else if pattern[0] == '*' then GlobMatch(name, pattern[1..]) || (name != [] && GlobMatch(name[1..], pattern))
    else name != [] && (pattern[0] == '?' || pattern[0] == name[0]) && GlobMatch(name[1..], pattern[1..])
  }

  /** A lone '*' matches every name. */
  lemma {:induction false} StarMatchesAll(name: string)
    ensures GlobMatch(name, "*")
  {
    if name != [] {
      StarMatchesAll(name[1..]);
    } else {
      assert "*"[1..] == [];
    }
  }

  /** A pattern free of wildcards followed by '*' matches the names it starts. */
  lemma {:induction false} LiteralThenStar(name: string, text: string)
    requires forall i :: 0 <= i < |text| ==> !IsWildcard(text[i])
    ensures GlobMatch(name, text + "*") <==> |text| <= |name| && name[..|text|] == text
  {
    if text == [] {
      assert text + "*" == "*";
      StarMatchesAll(name);
    } else {
      assert (text + "*")[1..] == text[1..] + "*";
      LiteralThenStar(if name == [] then [] else name[1..], text[1..]);
      if name != [] && |text| <= |name| && name[..|text|] == text {
        assert name[1..][..|text| - 1] == text[1..];
      }
      if name != [] && text[0] == name[0] && |text| <= |name| && name[1..][..|text| - 1] == text[1..] {
        assert name[..|text|] == [name[0]] + name[1..][..|text| - 1];
      }
    }
  }

  /** A leading '*' lets the rest of the pattern match any suffix. */
  lemma {:induction false} StarThen(name: string, rest: string)
    ensures GlobMatch(name, "*" + rest) <==> exists i :: 0 <= i <= |name| && GlobMatch(name[i..], rest)
  {
    assert ("*" + rest)[1..] == rest;
    assert name[0..] == name;
    if name != [] {
      StarThen(name[1..], rest);
      forall i | 1 <= i <= |name| ensures name[1..][i - 1..] == name[i..] {
      }
      if exists i :: 0 <= i <= |name| && GlobMatch(name[i..], rest) {
        var i :| 0 <= i <= |name| && GlobMatch(name[i..], rest);
        if i > 0 {
          assert GlobMatch(name[1..][i - 1..], rest);
        }
      }
    }
  }

  /** Whether text occurs in name at position i. */
  predicate OccursAt(name: string, text: string, i: nat)
  {
    i + |text| <= |name| && name[i..i + |text|] == text
  }

  /**
   * `fnmatch(name, f'*{text}*')` for a text without wildcards (and, for the
   * real `fnmatch`, without brackets): whether text occurs in name.
   */
  lemma ContainsMatch(name: string, text: string)
    requires forall i :: 0 <= i < |text| ==> !IsWildcard(text[i])
    ensures GlobMatch(name, "*" + text + "*") <==> exists i: nat :: OccursAt(name, text, i)
  {
    assert "*" + text + "*" == "*" + (text + "*");
    StarThen(name, text + "*");
    if GlobMatch(name, "*" + text + "*") {
      var i :| 0 <= i <= |name| && GlobMatch(name[i..], text + "*");
      LiteralThenStar(name[i..], text);
      assert name[i..][..|text|] == name[i..i + |text|];
      assert OccursAt(name, text, i);
    }
    if exists i: nat :: OccursAt(name, text, i) {
      var i: nat :| OccursAt(name, text, i);
      LiteralThenStar(name[i..], text);
      assert name[i..][..|text|] == name[i..i + |text|];
      assert GlobMatch(name[i..], text + "*");
    }
  }
}
