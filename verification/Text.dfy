/** The few string operations the rework matches names with. */
module Text {

  predicate StartsWith(s: string, prefix: string) {
    |prefix| <= |s| && s[..|prefix|] == prefix
  }

  predicate Contains(s: string, part: string) {
    exists i :: 0 <= i <= |s| && StartsWith(s[i..], part)
  }

  /** A part is held where it stands between what is before it and what is after. */
  lemma ContainsIff(s: string, part: string)
    ensures Contains(s, part) <==> exists before, after: string :: s == before + part + after
  {
    if Contains(s, part) {
      var i :| 0 <= i <= |s| && StartsWith(s[i..], part);
      assert s == s[..i] + part + s[i..][|part|..];
    }
    if before, after: string :| s == before + part + after {
      assert s[|before|..] == part + after;
      assert StartsWith(s[|before|..], part);
    }
  }

  /** `*` stands for any run of characters; every other character for itself; both ends anchored. */
  predicate GlobMatch(pattern: string, text: string)
    decreases |pattern|
  {
    if pattern == "" then text == ""
    else if pattern[0] == '*' then
      exists skip :: 0 <= skip <= |text| && GlobMatch(pattern[1..], text[skip..])
    else text != "" && text[0] == pattern[0] && GlobMatch(pattern[1..], text[1..])
  }

  function Stars(pattern: string): nat {
    if pattern == "" then 0 else (if pattern[0] == '*' then 1 else 0) + Stars(pattern[1..])
  }

  /** The pattern with its stars replaced, in order, by `fills`. */
  function Expand(pattern: string, fills: seq<string>): string
    requires |fills| == Stars(pattern)
  {
    if pattern == "" then ""
    else if pattern[0] == '*' then fills[0] + Expand(pattern[1..], fills[1..])
    else [pattern[0]] + Expand(pattern[1..], fills)
  }

  /** The matcher accepts exactly the texts some filling of the stars spells. */
  lemma GlobMatchIffExpansion(pattern: string, text: string)
    ensures GlobMatch(pattern, text) <==>
            exists fills: seq<string> :: |fills| == Stars(pattern) && Expand(pattern, fills) == text
  {
    if GlobMatch(pattern, text) {
      var fills := FillStars(pattern, text);
    }
    forall fills: seq<string> | |fills| == Stars(pattern) && Expand(pattern, fills) == text
      ensures GlobMatch(pattern, text)
    {
      ExpansionMatches(pattern, fills);
    }
  }

  lemma {:induction false} FillStars(pattern: string, text: string) returns (fills: seq<string>)
    requires GlobMatch(pattern, text)
    ensures |fills| == Stars(pattern) && Expand(pattern, fills) == text
    decreases |pattern|
  {
    if pattern == "" {
      fills := [];
    } else if pattern[0] == '*' {
      var skip :| 0 <= skip <= |text| && GlobMatch(pattern[1..], text[skip..]);
      var rest := FillStars(pattern[1..], text[skip..]);
      fills := [text[..skip]] + rest;
      assert fills[1..] == rest;
    } else {
      fills := FillStars(pattern[1..], text[1..]);
    }
  }

  lemma {:induction false} ExpansionMatches(pattern: string, fills: seq<string>)
    requires |fills| == Stars(pattern)
    ensures GlobMatch(pattern, Expand(pattern, fills))
    decreases |pattern|
  {
    if pattern != "" {
      if pattern[0] == '*' {
        var text := Expand(pattern, fills);
        ExpansionMatches(pattern[1..], fills[1..]);
        assert text[|fills[0]|..] == Expand(pattern[1..], fills[1..]);
      } else {
        ExpansionMatches(pattern[1..], fills);
      }
    }
  }
}
